/** The broker in place (src/broker/state.h, src/broker/handler.h and the handlers of src/broker/loop.h). Every
    method is tied to the event of module Runs that it carries out. */
module BrokerObject {
  import opened Common
  import opened Inflight
  import opened PacketIdIndex
  import opened Shared
  import opened Egress
  import opened Flush
  import opened Ceremony
  import opened Qos2
  import opened Conservation
  import opened Broker
  import Spec = Broker
  import opened BrokerInv
  import opened SlotSteps
  import opened CloseSteps
  import opened FanoutSteps
  import opened Runs
  import opened BrokerTurns
  import opened Delivery
  import Packet
  import Parser = Publish
  import opened Arrival
  import opened PoolObjects
  import opened ClientObjects
  import opened EgressEngine
  import opened EgressCompletion
  import opened CeremonyEngine
  import opened Timeouts
  import opened Topics
  import opened TrieModel
  import opened TrieMatch
  import opened TopicTrie

  /** The records of all slots. */
  ghost function Views(cs: seq<ClientSlot>, space: set<object>): (s: seq<Client>)
    requires forall i :: 0 <= i < |cs| ==> cs[i].repr <= space && cs[i].Valid()
    reads space
    ensures |s| == |cs|
    ensures forall i :: 0 <= i < |cs| ==> s[i] == cs[i].View()
  {
    if cs == [] then [] else Views(cs[..|cs| - 1], space) + [cs[|cs| - 1].View()]
  }

  function FreeRecord(link: int, inflight: nat, capacity: nat): Client {
    Client(Vacant, false, 0, link, false, INVALID, INVALID, Blank(inflight), [], capacity, false, 0)
  }

  function LinkAfter(i: nat, n: nat): int {
    if i + 1 < n then i + 1 else -1
  }

  /** Slots that share no memory, all of it in space. */
  ghost predicate DisjointSlots(cs: seq<ClientSlot>, space: set<object>) {
    && (forall i :: 0 <= i < |cs| ==> cs[i].repr <= space)
    && (forall i, j :: 0 <= i < j < |cs| ==> cs[i].repr !! cs[j].repr)
  }

  /** The client slots of broker_init, each linked to the next as the free list. */
  method MakeSlots(n: nat, inflight: nat, capacity: nat) returns (cs: seq<ClientSlot>, ghost space: set<object>)
    requires ValidMax(inflight) && 0 < capacity
    ensures |cs| == n && fresh(space) && DisjointSlots(cs, space)
    ensures forall i :: 0 <= i < n ==> cs[i].Valid() && cs[i].View() == FreeRecord(LinkAfter(i, n), inflight, capacity)
  {
    hide Consistent, Indexes, Blank, LinkAfter;
    cs, space := [], {};
    while |cs| < n
      invariant |cs| <= n && fresh(space) && DisjointSlots(cs, space)
      invariant forall i :: 0 <= i < |cs| ==> cs[i].Valid() && cs[i].View() == FreeRecord(LinkAfter(i, n), inflight, capacity)
      decreases n - |cs|
    {
      var c := new ClientSlot(inflight, capacity, LinkAfter(|cs|, n));
      cs := cs + [c];
      space := space + c.repr;
    }
  }

  const NO_PUBLISH := Incoming(0, 0, false, 0, 0, 0, 0)
  const NO_MESSAGE := Parser.Message(false, 0, false, [], 0, [])

  class BrokerState {
    const res: Resources
    const clients: seq<ClientSlot>
    const fdToSlot: array<int>
    var freeHead: nat
    var activeCount: int
    var dormantCount: int
    const maxInflight: nat
    const trie: TopicTrie
    ghost var recvs: set<Recv> // what the kernel has not completed

    ghost function Own(): set<object> { {this, fdToSlot, trie, trie.nodes} }

    ghost const repr: set<object>

    /** No two parts share memory. All of this is fixed when the broker is built. */
    ghost predicate Separate() {
      && Own() + res.repr <= repr && Own() !! res.repr
      && (forall i :: 0 <= i < |clients| ==> clients[i].repr <= repr && clients[i].repr !! Own() && clients[i].repr !! res.repr)
      && (forall i, j :: 0 <= i < j < |clients| ==> clients[i].repr !! clients[j].repr)
    }

    ghost predicate Valid()
      reads repr
    {
      Separate() && res.Valid() && trie.Valid() && forall i :: 0 <= i < |clients| ==> clients[i].Valid()
    }

    ghost function View(): Broker
      requires Valid()
      reads repr
    {
      Broker(res.View(), Views(clients, repr), fdToSlot[..], freeHead, activeCount, dormantCount, maxInflight,
             SubsOf(trie.nodes[..]), recvs)
    }

    /** A broker over parts that share no memory. */
    constructor (shared: Resources, slots: seq<ClientSlot>, ghost space: set<object>, fds: array<int>, tree: TopicTrie, inflight: nat)
      requires shared.Valid() && tree.Valid() && DisjointSlots(slots, space) && forall i :: 0 <= i < |slots| ==> slots[i].Valid()
      requires {fds, tree, tree.nodes} !! shared.repr && space !! shared.repr && space !! {fds, tree, tree.nodes}
      ensures Valid() && repr == {this, fds, tree, tree.nodes} + shared.repr + space
      ensures var b := View();
              && b == Broker(shared.View(), b.clients, fds[..], 0, 0, 0, inflight, SubsOf(tree.nodes[..]), {})
              && |b.clients| == |slots| && forall i :: 0 <= i < |slots| ==> b.clients[i] == slots[i].View()
    {
      hide Consistent, Indexes, TrieOk;
      res, clients, fdToSlot, trie, maxInflight := shared, slots, fds, tree, inflight;
      freeHead, activeCount, dormantCount, recvs := 0, 0, 0, {};
      repr := {this, fds, tree, tree.nodes} + shared.repr + space;
    }

    /** Of the clients only slot i changed: the broker follows the parts that may have changed with it. */
    twostate lemma OthersStay(i: nat)
      requires i < |clients| && old(Valid()) && res.Valid() && trie.Valid() && clients[i].Valid()
      requires forall j :: 0 <= j < |clients| && j != i ==> unchanged(clients[j].repr)
      ensures Valid() && Together(res, clients[i])
      ensures View() == Broker(res.View(), old(View()).clients[i := clients[i].View()], fdToSlot[..], freeHead, activeCount,
                               dormantCount, maxInflight, SubsOf(trie.nodes[..]), recvs)
    {
      hide Consistent, Indexes, TrieOk;
      forall j | 0 <= j < |clients| && j != i
        ensures clients[j].Valid() && clients[j].View() == old(clients[j].View())
      {
      }
      assert View().clients == old(View()).clients[i := clients[i].View()];
    }

    /** Only slot i and the shared resources changed: the broker is the old one with that site put back. */
    twostate lemma Lifted(i: nat)
      requires i < |clients| && old(Valid()) && res.Valid() && clients[i].Valid()
      requires unchanged(Own()) && forall j :: 0 <= j < |clients| && j != i ==> unchanged(clients[j].repr)
      ensures Valid() && Together(res, clients[i]) && View() == Put(old(View()), i, SiteOf(res, clients[i]))
    {
      hide Consistent, Indexes, TrieOk;
      OthersStay(i);
    }

    // ---- slots ----

    /** broker_alloc_slot */
    method AllocSlot(fd: int) returns (slot: int)
      requires Valid() && Inv(View()) && AcceptPossible(View(), fd)
      modifies repr
      ensures Valid() && Inv(View())
      ensures Allocated(View(), slot) == Spec.AllocSlot(old(View()), fd)
    {
      hide Inv, InitClient, AcceptPossible, BrokerState.View, BrokerState.Valid;
      AcceptKeeps(View(), fd);
      Fields();
      if freeHead >= |clients| {
        return -1;
      }
      if fd < 0 || fd >= fdToSlot.Length {
        return -1;
      }
      SlotCount(View(), freeHead);
      var buf := TakeBuffer();
      Fields();
      if buf == INVALID {
        return -1;
      }
      slot := freeHead;
      TakeSlot(fd, buf);
    }

    /** What the fields are in the view. */
    lemma Fields()
      requires Valid()
      ensures var b := View();
              && b.freeHead == freeHead && b.recvs == recvs && b.maxInflight == maxInflight && |b.clients| == |clients| && b.fdToSlot == fdToSlot[..]
              && forall i :: 0 <= i < |clients| ==> b.clients[i] == clients[i].View()
    {
      hide Consistent, Indexes, TrieOk;
    }

    lemma SlotsHave(i: nat)
      requires Valid() && i < |clients|
      ensures clients[i].Valid() && |clients[i].View().slots.hot| == clients[i].table.n && clients[i].View().fd == clients[i].fd
      ensures var c := clients[i].View();
              && c.state == clients[i].state && c.cleanSession == clients[i].cleanSession && c.generation == clients[i].generation
              && c.recvBuf == clients[i].recvBuf && c.recvPending == clients[i].recvPending && c.orphan == clients[i].orphan
    {
      hide Consistent, Indexes, TrieOk;
    }

    /** buf_pool_alloc on the receive pool. */
    method TakeBuffer() returns (buf: u32)
      requires Valid() && |clients| > 0
      modifies repr
      ensures Valid() && (buf == INVALID <==> old(View()).p.bufFree == [])
      ensures var b := old(View()); var free := b.p.bufFree;
              && (free == [] ==> View() == b)
              && (free != [] ==> buf == free[|free| - 1] && View() == b.(p := b.p.(bufFree := free[..|free| - 1])))
    {
      hide Consistent, Indexes, TrieOk;
      ghost var was := View();
      buf := res.AllocBuf();
      Lifted(0);
      PutSame(was, 0);
    }

    /** The head of the free list becomes the client of fd, with buf to receive into. */
    method TakeSlot(fd: int, buf: u32)
      requires Valid() && freeHead < |clients| && 0 <= fd < fdToSlot.Length
      requires |View().clients[freeHead].slots.hot| == maxInflight
      modifies repr
      ensures Valid()
      ensures var b := old(View()); var i := b.freeHead;
              View() == b.(clients := b.clients[i := InitClient(b.clients[i], fd, buf, b.maxInflight)],
                           freeHead := if b.clients[i].fd >= 0 then b.clients[i].fd else |b.clients|,
                           fdToSlot := b.fdToSlot[fd := i], activeCount := b.activeCount + 1)
    {
      hide InitClient, ClientSlot.Valid, ClientSlot.View, TopicTrie.Valid, Resources.Valid, Resources.View;
      Fields();
      SlotsHave(freeHead);
      var i := freeHead;
      freeHead := if clients[i].fd >= 0 then clients[i].fd else |clients|;
      clients[i].Init(fd, buf);
      fdToSlot[fd] := i;
      activeCount := activeCount + 1;
      OthersStay(i);
    }

    /** The receive buffer of a client that goes away. */
    method LetGoBuffer(i: nat)
      requires Valid() && i < |clients|
      requires var c := View().clients[i]; c.recvBuf != INVALID && !c.recvPending ==> |View().p.bufFree| < |View().p.bufs|
      modifies repr
      ensures Valid() && View() == Put(old(View()), i, LetGo(old(View()).p, old(View()).clients[i]))
    {
      hide ClientSlot.Valid, ClientSlot.View, TopicTrie.Valid, Resources.Valid, Resources.View;
      SlotsHave(i);
      ghost var was := View();
      if clients[i].recvBuf == INVALID {
        PutSame(was, i);
        return;
      }
      if clients[i].recvPending {
        clients[i].SetOrphan(clients[i].recvBuf);
      } else {
        res.FreeBuf(clients[i].recvBuf);
      }
      Lifted(i);
    }

    /** The descriptor map and the counters when client i is no longer connected. */
    method Unmap(i: nat, dormant: bool)
      requires Valid() && i < |clients|
      modifies repr
      ensures Valid()
      ensures var b := old(View());
              View() == b.(fdToSlot := Spec.Unmap(b, b.clients[i].fd), activeCount := b.activeCount - 1,
                           dormantCount := if dormant then b.dormantCount + 1 else b.dormantCount)
    {
      hide ClientSlot.Valid, ClientSlot.View, TopicTrie.Valid, Resources.Valid, Resources.View;
      Fields();
      SlotsHave(i);
      ghost var was := View();
      if 0 <= clients[i].fd < fdToSlot.Length {
        fdToSlot[clients[i].fd] := -1;
      }
      activeCount := activeCount - 1;
      dormantCount := if dormant then dormantCount + 1 else dormantCount;
      OthersStay(i);
      assert View().clients == was.clients;
    }

    /** trie_remove_fd as the broker sees it. */
    method DropSubscriptions(i: nat)
      requires Valid() && i < |clients|
      modifies repr
      ensures Valid()
      ensures var b := old(View());
              View() == b.(nodes := seq(|b.nodes|, k requires 0 <= k < |b.nodes| => b.nodes[k] - {i}))
    {
      hide ClientSlot.Valid, ClientSlot.View, TopicTrie.Valid, Resources.Valid, Resources.View, SubsAt;
      SlotsHave(i);
      ghost var was := View();
      trie.RemoveFd(i);
      OthersStay(i);
      assert View().clients == was.clients;
      assert View().nodes == seq(|was.nodes|, k requires 0 <= k < |was.nodes| => was.nodes[k] - {i});
    }

    /** client_free, and the slot becomes the head of the free list. */
    method LinkFree(i: nat)
      requires Valid() && i < |clients|
      modifies repr
      ensures Valid()
      ensures var b := old(View()); var c := b.clients[i];
              View() == b.(clients := b.clients[i := c.(slots := FreeAll(c.slots), state := Vacant, recvBuf := INVALID,
                                                        writing := false, fd := b.freeHead)], freeHead := i)
    {
      hide ClientSlot.Valid, ClientSlot.View, TopicTrie.Valid, Resources.Valid, Resources.View, FreeAll;
      Fields();
      SlotsHave(i);
      clients[i].Free(freeHead);
      freeHead := i;
      OthersStay(i);
    }

    /** broker_free_slot on a connected client. */
    method FreeSlot(i: nat)
      requires Valid() && i < |clients|
      requires var c := View().clients[i]; c.recvBuf != INVALID && !c.recvPending ==> |View().p.bufFree| < |View().p.bufs|
      modifies repr
      ensures Valid() && View() == FreeClientSlot(old(View()), i)
    {
      hide BrokerState.Valid, BrokerState.View, FreeAll;
      Fields();
      Unmap(i, false);
      LetGoBuffer(i);
      DropSubscriptions(i);
      LinkFree(i);
      assert View().clients == FreeClientSlot(old(View()), i).clients;
      assert View().nodes == FreeClientSlot(old(View()), i).nodes;
    }

    /** broker_slot_go_dormant */
    method GoDormant(i: nat)
      requires Valid() && i < |clients|
      requires var c := View().clients[i]; c.recvBuf != INVALID && !c.recvPending ==> |View().p.bufFree| < |View().p.bufs|
      modifies repr
      ensures Valid() && View() == Spec.GoDormant(old(View()), i)
    {
      hide BrokerState.Valid, BrokerState.View;
      Fields();
      Unmap(i, true);
      LetGoBuffer(i);
      Sleep(i);
      assert View().clients == Spec.GoDormant(old(View()), i).clients;
    }

    /** client_go_dormant */
    method Sleep(i: nat)
      requires Valid() && i < |clients|
      modifies repr
      ensures Valid()
      ensures var b := old(View());
              View() == b.(clients := b.clients[i := b.clients[i].(state := Dormant, recvBuf := INVALID, writing := false, fd := -1)])
    {
      hide ClientSlot.Valid, ClientSlot.View, TopicTrie.Valid, Resources.Valid, Resources.View;
      SlotsHave(i);
      clients[i].GoDormant();
      Lifted(i);
    }

    /** fsm_client_disconnect on client i. */
    method DropReferences(i: nat)
      requires Valid() && i < |clients| && Fit(SiteAt(i), X(i), Y())
      modifies repr
      ensures Valid() && View() == Put(old(View()), i, Disconnect(old(SiteAt(i))))
    {
      hide Fit, X, Y, Consistent, Indexes, TrieOk, Disconnect;
      DisconnectClient(res, clients[i], X(i), Y());
      Lifted(i);
    }

    /** handle_close */
    method HandleClose(fd: int)
      requires Valid() && Inv(View())
      modifies repr
      ensures Valid() && View() == CloseDone(old(View()), fd)
      ensures Inv(View()) <==> !(Closes(old(View()), fd) && OrphanTaken(old(View()).clients[SlotOf(old(View()), fd)]))
    {
      hide BrokerState.Valid, BrokerState.View, Inv, OrphanTaken, FreeClientSlot, Spec.GoDormant, Disconnect;
      ghost var was := View();
      Fields();
      if fd < 0 || fd >= fdToSlot.Length || fdToSlot[fd] < 0 {
        return;
      }
      MappedSlot(was, fd);
      var i := fdToSlot[fd];
      SlotsHave(i);
      if (clients[i].state == Active || clients[i].state == Closing) && clients[i].fd == fd {
        CloseKeepsIff(was, fd);
        CloseSlot(i);
      }
    }

    /** The client's half of handle_close. */
    method CloseSlot(i: nat)
      requires Valid() && Inv(View()) && i < |clients| && Connected(View().clients[i])
      modifies repr
      ensures Valid()
      ensures var b := old(View()); var s := Disconnect(At(b, i));
              View() == if s.c.cleanSession then FreeClientSlot(Put(b, i, s), i) else Spec.GoDormant(Put(b, i, s), i)
    {
      hide BrokerState.Valid, BrokerState.View, BrokerState.SiteAt, Inv, Fit, X, Y, FreeClientSlot, Spec.GoDormant, Disconnect, Consistent, Indexes, TrieOk;
      Fields();
      SlotsHave(i);
      SiteFits(i);
      CloseRoom(View(), i);
      DropReferences(i);
      Fields();
      SlotsHave(i);
      if clients[i].cleanSession {
        FreeSlot(i);
      } else {
        GoDormant(i);
      }
    }

    // ---- receiving ----

    /** submit_close between two events. */
    method StartClose(fd: int)
      requires Valid() && Inv(View())
      modifies repr
      ensures Valid() && Inv(View()) && View() == SubmitClose(old(View()), fd)
    {
      hide BrokerState.Valid, BrokerState.View, Inv, SubmitClose;
      SubmitCloseKeeps(View(), fd);
      Fields();
      MappedFd(View(), fd);
      CloseSoon(fd);
    }

    /** submit_close: the client stops taking new work until its close completes. */
    method CloseSoon(fd: int)
      requires Valid() && (0 <= fd < fdToSlot.Length ==> fdToSlot[fd] < |clients|)
      modifies repr
      ensures Valid() && View() == SubmitClose(old(View()), fd)
    {
      hide BrokerState.Valid, BrokerState.View;
      Fields();
      if fd < 0 || fd >= fdToSlot.Length || fdToSlot[fd] < 0 {
        return;
      }
      var i := fdToSlot[fd];
      SlotsHave(i);
      if clients[i].state == Active {
        SetState(i, Closing);
      }
    }

    method SetState(i: nat, state: ClientState)
      requires Valid() && i < |clients|
      modifies repr
      ensures Valid() && View() == old(View()).(clients := old(View()).clients[i := old(View()).clients[i].(state := state)])
    {
      hide Consistent, Indexes, TrieOk;
      clients[i].state := state;
      Lifted(i);
    }

    method SetPending(i: nat, pending: bool)
      requires Valid() && i < |clients|
      modifies repr
      ensures Valid() && View() == old(View()).(clients := old(View()).clients[i := old(View()).clients[i].(recvPending := pending)])
    {
      hide Consistent, Indexes, TrieOk;
      clients[i].recvPending := pending;
      Lifted(i);
    }

    /** The receives the kernel works on. */
    method SetReceives(ghost all: set<Recv>)
      requires Valid() && |clients| > 0
      modifies repr
      ensures Valid() && View() == old(View()).(recvs := all)
    {
      hide ClientSlot.Valid, ClientSlot.View, TopicTrie.Valid, Resources.Valid, Resources.View;
      ghost var was := View();
      SlotsHave(0);
      recvs := all;
      OthersStay(0);
      assert View().clients == was.clients;
    }

    /** submit_recv_internal on an active client, given whether its window fills the buffer. */
    method StartReceive(i: nat, bufferFull: bool)
      requires i < |clients| && clients[i].state == Active && !clients[i].recvPending && Valid() && Inv(View())
      modifies repr
      ensures Valid() && Inv(View()) && View() == SubmitRecv(old(View()), i, bufferFull)
    {
      hide BrokerState.Valid, BrokerState.View, Inv;
      Fields();
      SlotsHave(i);
      SubmitRecvKeeps(View(), i, bufferFull);
      ghost var c := View().clients[i];
      if clients[i].recvBuf == INVALID {
        return;
      }
      if bufferFull {
        SetState(i, Closing);
        return;
      }
      SetPending(i, true);
      SetReceives(View().recvs + {Recv(i, c.generation, c.recvBuf)});
    }

    /** The orphan goes back to the pool once a stale receive has completed. */
    method FreeOrphanBuffer(i: nat)
      requires Valid() && i < |clients| && (View().clients[i].orphan != INVALID ==> |View().p.bufFree| < |View().p.bufs|)
      modifies repr
      ensures Valid() && View() == Put(old(View()), i, FreeOrphan(old(View()).p, old(View()).clients[i]))
    {
      hide ClientSlot.Valid, ClientSlot.View, TopicTrie.Valid, Resources.Valid, Resources.View;
      SlotsHave(i);
      ghost var was := View();
      if clients[i].orphan == INVALID {
        PutSame(was, i);
        return;
      }
      res.FreeBuf(clients[i].orphan);
      clients[i].SetOrphan(INVALID);
      Lifted(i);
    }

    /** handle_recv up to the processing of the bytes. */
    method HandleRecv(slot: nat, generation: byte, result: int, ghost r: Recv)
      requires Valid() && Inv(View()) && r in recvs && r.slot == slot && r.generation == generation && slot < |clients|
      modifies repr
      ensures Valid() && View() == RecvDone(old(View()), r, result)
      ensures Inv(View()) <==> !FreesForeignOrphan(old(View()), r)
    {
      hide BrokerState.Valid, BrokerState.View, Inv, SubmitClose, FreeOrphan;
      Fields();
      SlotsHave(slot);
      ghost var was := View();
      RecvDoneKeepsIff(was, r, result);
      OrphanRoom(was, slot);
      SetReceives(was.recvs - {r});
      Fields();
      SlotsHave(slot);
      if clients[slot].generation != generation {
        FreeOrphanBuffer(slot);
        return;
      }
      SetPending(slot, false);
      Fields();
      SlotsHave(slot);
      if clients[slot].state != Active {
        FreeOrphanBuffer(slot);
        assert View().clients == RecvDone(was, r, result).clients;
        return;
      }
      assert View() == Put(was.(recvs := was.recvs - {r}), slot, Site(was.p, was.clients[slot].(recvPending := false)));
      if result <= 0 {
        MappedFd(was, clients[slot].fd);
        CloseSoon(clients[slot].fd);
      }
    }

    // ---- subscriptions ----

    /** sub_add for a filter of client i; at is the trie node of its path. */
    method SubscribeFilter(i: nat, filter: seq<byte>) returns (r: int, ghost at: nat)
      requires Valid() && Inv(View()) && i < |clients| && clients[i].state == Active
      modifies repr
      ensures Valid() && Inv(View())
      ensures r == 0 ==> at in trie.paths && trie.paths[at] == Stored(filter)
      ensures r == 0 ==> at < |old(View()).nodes| && View() == Spec.Subscribe(old(View()), i, at)
      ensures filter == [] || i >= 4096 ==> r != 0
      ensures filter != [] && i < 4096 && HasPath(old(trie.paths), Stored(filter)) ==> r == 0
      ensures filter != [] && i < 4096 && r != 0 ==>
                exists p :: p in trie.paths && trie.paths[p] < Stored(filter) && (trie.freeHead == 0 || FullNode(trie.nodes[..], p))
      ensures r != 0 ==> View() == old(View())
    {
      hide ClientSlot.Valid, ClientSlot.View, TopicTrie.Valid, Resources.Valid, Resources.View, SubsAt, Inv, HasPath, Stored;
      at := 0;
      if filter == [] {
        return -1, 0;
      }
      Fields();
      SlotsHave(i);
      ghost var was := View();
      r, at := trie.Subscribe(filter, i, clients[i].generation);
      OthersStay(i);
      assert View().clients == was.clients;
      if r == 0 {
        SubsKeep(was, i, at);
        assert View().nodes == Spec.Subscribe(was, i, at).nodes;
      } else {
        assert View().nodes == was.nodes;
      }
    }

    /** sub_remove for a filter of client i. */
    method UnsubscribeFilter(i: nat, filter: seq<byte>) returns (r: int, ghost at: nat)
      requires Valid() && Inv(View()) && i < |clients| && clients[i].state == Active
      modifies repr
      ensures Valid() && Inv(View())
      ensures r == 0 <==> i < 4096 && HasPath(trie.paths, Stored(filter))
      ensures r == 0 ==> at in trie.paths && trie.paths[at] == Stored(filter)
      ensures r == 0 ==> at < |old(View()).nodes| && View() == Spec.Unsubscribe(old(View()), i, at)
      ensures r != 0 ==> View() == old(View())
    {
      hide ClientSlot.Valid, ClientSlot.View, TopicTrie.Valid, Resources.Valid, Resources.View, SubsAt, Inv, HasPath, Stored;
      Fields();
      SlotsHave(i);
      ghost var was := View();
      r, at := trie.Unsubscribe(filter, i);
      OthersStay(i);
      assert View().clients == was.clients;
      if r == 0 {
        SubsKeep(was, i, at);
        assert View().nodes == Spec.Unsubscribe(was, i, at).nodes;
      } else {
        assert View().nodes == was.nodes;
      }
    }

    // ---- events of one client ----

    /** The references and buffers that clients other than i account for. */
    ghost function X(i: nat): multiset<int>
      requires i < |clients| && Valid()
      reads repr
    {
      multiset{} + OwnersBut(View().clients, i)
    }

    ghost function Y(): multiset<int>
      requires Valid()
      reads repr
    {
      Holders(View().clients)
    }

    ghost function SiteAt(i: nat): (s: Site)
      requires i < |clients| && Valid()
      reads repr
      ensures s == At(View(), i) && Shaped(s.c.slots)
    {
      SiteOf(res, clients[i])
    }

    lemma SiteFits(i: nat)
      requires Valid() && Inv(View()) && i < |clients|
      ensures Connected(SiteAt(i).c) ==> Fit(SiteAt(i), X(i), Y())
    {
      hide PoolInv, SlotInv, SubsInv, RecvInv, Sound, ClientOk, Consistent, Indexes, TrieOk, Fit;
      if Connected(SiteAt(i).c) {
        ActiveFits(View(), i);
      }
    }

    /** PUBACK from client i. */
    method Puback(i: nat, id: u16)
      requires Valid() && Inv(View()) && i < |clients| && clients[i].state == Active
      modifies repr
      ensures Valid() && Inv(View()) && View() == Put(old(View()), i, PubackReceived(old(SiteAt(i)), id))
    {
      hide Inv, Fit, Consistent, Indexes, TrieOk, PubackReceived, X, Y;
      SiteFits(i);
      AckKeeps(View(), i, id);
      OnPuback(res, clients[i], id, X(i), Y());
      Lifted(i);
    }

    /** PUBREC from client i. */
    method Pubrec(i: nat, id: u16)
      requires Valid() && Inv(View()) && i < |clients| && clients[i].state == Active
      modifies repr
      ensures Valid() && Inv(View()) && View() == Put(old(View()), i, PubrecReceived(old(SiteAt(i)), id))
    {
      hide Inv, Fit, Consistent, Indexes, TrieOk, PubrecReceived, X, Y;
      SiteFits(i);
      AckKeeps(View(), i, id);
      OnPubrec(res, clients[i], id, X(i), Y());
      Lifted(i);
    }

    /** PUBREL from client i. */
    method Pubrel(i: nat, id: u16) returns (reply: Reply)
      requires Valid() && Inv(View()) && i < |clients| && clients[i].state == Active
      modifies repr
      ensures Valid() && Inv(View()) && reply == Pubcomp(id)
      ensures View() == old(View()).(clients := old(View()).clients[i := old(SiteAt(i)).c.(
                                                slots := PubrelReceived(old(SiteAt(i)).c.slots, id).slots)])
    {
      hide Inv, PubrelReceived, ClientSlot.Valid, ClientSlot.View, Resources.Valid, Resources.View, TopicTrie.Valid;
      SlotsHave(i);
      Fields();
      PubrelKeeps(View(), i, id);
      AlwaysPubcomp(SiteAt(i).c.slots, id);
      reply := PubrelCeremony(clients[i], id);
      Lifted(i);
    }

    /** handle_egress_cqe */
    method WritevCqe(i: nat, generation: byte, fd: int, result: int) returns (code: FlushCode, iov: seq<seq<byte>>)
      requires Valid() && Inv(View()) && i < |clients| && -0x8000_0000 <= result < 0x8000_0000
      requires var c := SiteAt(i).c; c.generation == generation && c.fd == fd && c.queue != [] ==> c.writing
      modifies repr
      ensures Valid() && Inv(View())
      ensures var f := EgressCqe(old(SiteAt(i)), generation, fd, result);
              View() == Put(old(View()), i, f.site) && code == f.code && iov == f.iov
    {
      hide Inv, Fit, Consistent, Indexes, TrieOk, EgressCqe, X, Y;
      SiteFits(i);
      QueueIsConnected(View(), i);
      EgressCqeStep(View(), i, generation, fd, result);
      code, iov := HandleEgressCqe(res, clients[i], generation, fd, result, X(i), Y());
      Lifted(i);
    }

    /** A retried flush from the egress flush queue. */
    method RetryFlush(i: nat) returns (code: FlushCode, iov: seq<seq<byte>>)
      requires Valid() && Inv(View()) && i < |clients|
      modifies repr
      ensures Valid() && Inv(View())
      ensures var f := EgressFlush(old(SiteAt(i))); View() == Put(old(View()), i, f.site) && code == f.code && iov == f.iov
    {
      hide Inv, Fit, Consistent, Indexes, TrieOk, EgressFlush, X, Y;
      SiteFits(i);
      FlushStep(View(), i);
      code, iov := FlushEgress(res, clients[i], X(i), Y());
      Lifted(i);
    }

    /** fsm_sweep_client on slot i. */
    method SweepSlot(i: nat)
      requires Valid() && Inv(View()) && i < |clients|
      modifies repr
      ensures Valid() && Inv(View()) && View() == Put(old(View()), i, SweepClient(old(SiteAt(i))))
    {
      hide Inv, Fit, Consistent, Indexes, TrieOk, SweepClient, X, Y;
      SiteFits(i);
      FlushStep(View(), i);
      SweepEntries(res, clients[i], X(i), Y());
      Lifted(i);
    }

    /** fsm_sweep_all_timeouts */
    method SweepAll()
      requires Valid() && Inv(View())
      modifies repr
      ensures Valid() && Inv(View()) && AllShaped(old(View()).clients) && View() == SweepFrom(old(View()), 0)
    {
      hide Inv, Consistent, Indexes, TrieOk, SweepClient, SweepFrom, AllShaped;
      ghost var was := View();
      InvHasShapes(was);
      for i := 0 to |clients|
        invariant Valid() && Inv(View()) && AllShaped(View().clients) && SweepFrom(View(), i) == SweepFrom(was, 0)
      {
        SweepTurn(View(), i);
        if clients[i].state == Active && clients[i].table.count > 0 {
          SweepSlot(i);
        }
      }
      SweepDone(View(), |clients|);
    }

    // ---- publishing ----

    /** forward_publish_zc to slot i, with the base reference held. */
    method Forward(i: nat, m: u32, qos: byte)
      requires Valid() && i < |clients| && PoolInv(View(), multiset{m}) && View().clients[i].state == Active
      modifies repr
      ensures Valid() && Shaped(old(View()).clients[i].slots)
      ensures View() == Put(old(View()), i, StartDelivery(At(old(View()), i), m, qos).site)
    {
      hide Fit, Consistent, Indexes, TrieOk, StartDelivery, PoolInv, OwnersBut, Owners, Holders, Refs;
      ghost var b := View();
      DeliveryFits(b, i, m);
      assert SiteOf(res, clients[i]) == At(b, i);
      var ok, code := Deliver(res, clients[i], m, qos, multiset{m} + OwnersBut(b.clients, i), Holders(b.clients));
      Lifted(i);
    }

    /** One slot of the fan-out loop over a matched node. */
    method FanSlot(m: u32, qos: byte, node: map<int, byte>, i: nat, sent: set<int>, started: seq<int>)
      returns (sent': set<int>, started': seq<int>)
      requires Valid() && PoolInv(View(), multiset{m}) && i < |clients|
      modifies repr
      ensures Valid() && PoolInv(View(), multiset{m}) && View().nodes == old(View()).nodes
      ensures SameRest(Fan(old(View()), sent, started), i, Fan(View(), sent', started'), i + 1, m, qos, node)
    {
      hide BrokerState.Valid, BrokerState.View, PoolInv, AllShaped, FanNode;
      Fields();
      SlotsHave(i);
      AdoptShapes(View(), m);
      ghost var f := Fan(View(), sent, started);
      FanSkip(f, m, qos, node, i);
      sent', started' := sent, started;
      if i in node && i !in sent {
        sent' := sent + {i};
        if clients[i].state == Active && clients[i].generation == node[i] {
          DeliverKeeps(f.b, i, m, qos);
          Forward(i, m, qos);
          AdoptShapes(View(), m);
          FanDeliver(f, m, qos, node, i, View());
          started' := started + [i];
        }
      }
    }

    /** The slots of one matched node in process_publish_matches. */
    method FanNodeSlots(m: u32, qos: byte, node: map<int, byte>, sent: set<int>, started: seq<int>)
      returns (sent': set<int>, started': seq<int>)
      requires Valid() && PoolInv(View(), multiset{m})
      modifies repr
      ensures Valid() && PoolInv(View(), multiset{m}) && View().nodes == old(View()).nodes
      ensures AllShaped(old(View()).clients) && AllShaped(View().clients)
      ensures Fan(View(), sent', started') == FanNode(Fan(old(View()), sent, started), m, qos, node, 0)
    {
      hide BrokerState.Valid, BrokerState.View, PoolInv, Shaped, FanNode;
      ghost var was := View();
      AdoptShapes(was, m);
      sent', started' := sent, started;
      for i := 0 to |clients|
        invariant Valid() && PoolInv(View(), multiset{m}) && View().nodes == was.nodes && AllShaped(View().clients)
        invariant FanNode(Fan(View(), sent', started'), m, qos, node, i) == FanNode(Fan(was, sent, started), m, qos, node, 0)
      {
        sent', started' := FanSlot(m, qos, node, i, sent', started');
      }
      Fields();
      FanEnds(Fan(View(), sent', started'), m, qos, node, |clients|);
    }

    /** process_publish_matches; started lists the slots a delivery was started for. */
    method FanOutMatches(m: u32, qos: byte, found: seq<nat>) returns (ghost sent: set<int>, started: seq<int>)
      requires Valid() && PoolInv(View(), multiset{m}) && forall k :: 0 <= k < |found| ==> found[k] < trie.nodes.Length
      modifies repr
      ensures Valid() && AllShaped(old(View()).clients)
      ensures forall k :: 0 <= k < |found| ==> found[k] < |old(View()).nodes|
      ensures Fan(View(), sent, started) == FanOut(Fan(old(View()), {}, []), m, qos, Picked(old(View()).nodes, found))
    {
      hide BrokerState.View, ClientSlot.Valid, Resources.Valid, TopicTrie.Valid, PoolInv, Shaped, FanNode, FanOut;
      ghost var was := View();
      AdoptShapes(was, m);
      var marked: set<int> := {};
      started := [];
      NodesAre();
      assert found[0..] == found;
      for k := 0 to |found|
        invariant Valid() && PoolInv(View(), multiset{m}) && View().nodes == was.nodes && AllShaped(View().clients)
        invariant FanOut(Fan(View(), marked, started), m, qos, Picked(was.nodes, found[k..])) ==
                  FanOut(Fan(was, {}, []), m, qos, Picked(was.nodes, found))
      {
        NodesAre();
        FanOutTurn(Fan(View(), marked, started), m, qos, was.nodes, found[k..]);
        assert found[k..][1..] == found[k + 1..];
        marked, started := FanNodeSlots(m, qos, trie.nodes[found[k]].subs, marked, started);
      }
      FanOutEnds(Fan(View(), marked, started), m, qos, was.nodes, found[|found|..]);
      sent := marked;
    }

    ghost method TrieParts() returns (t: Trie)
      requires Valid()
      ensures t == trie.View() && TrieOk(t, trie.paths) && t.nodes == trie.nodes[..] && View().nodes == SubsOf(t.nodes)
    {
      hide Consistent, Indexes, TrieOk;
      t := trie.View();
    }

    lemma NodesAre()
      requires Valid()
      ensures View().nodes == SubsOf(trie.nodes[..])
    {
      hide Consistent, Indexes, TrieOk;
    }

    /** fsm_pub_received on client i. */
    method NotePublish(i: nat, pub: Incoming) returns (forward: bool, reply: Reply)
      requires Valid() && i < |clients|
      modifies repr
      ensures Valid() && Shaped(old(View()).clients[i].slots)
      ensures var b := old(View()); var o := PubReceived(b.clients[i].slots, pub.qos, pub.packetId, b.p.now);
              forward == o.forward && reply == o.reply && View() == Noted(b, i, pub)
    {
      hide PubReceived, Consistent, Indexes, TrieOk;
      forward, reply := PublishCeremony(clients[i], pub.qos, pub.packetId, res.now);
      Lifted(i);
    }

    /** msg_pool_alloc */
    method TakeMessage() returns (m: u32)
      requires Valid() && |clients| > 0
      modifies repr
      ensures Valid() && (m == INVALID <==> old(View()).p.msgFree == [])
      ensures var b := old(View()); var p := b.p; var free := p.msgFree;
              && (free == [] ==> View() == b)
              && (free != [] ==>
                    && m == free[|free| - 1] && m < |p.msgs|
                    && View() == b.(p := p.(msgs := p.msgs[m := p.msgs[m].(bufIdx := INVALID, refCount := 0)],
                                            msgFree := free[..|free| - 1])))
    {
      hide ClientSlot.Valid, ClientSlot.View, TopicTrie.Valid, Resources.Valid, Resources.View;
      ghost var was := View();
      SlotsHave(0);
      m := res.AllocMsg();
      Lifted(0);
      PutSame(was, 0);
    }

    /** msg_pool_free */
    method ReturnMessage(m: u32)
      requires Valid() && |clients| > 0 && (m < |View().p.msgs| ==> |View().p.msgFree| < |View().p.msgs|)
      modifies repr
      ensures Valid() && View() == old(View()).(p := Shared.FreeMsg(old(View()).p, m))
    {
      hide ClientSlot.Valid, ClientSlot.View, TopicTrie.Valid, Resources.Valid, Resources.View;
      ghost var was := View();
      SlotsHave(0);
      res.FreeMsg(m);
      Lifted(0);
      PutSame(was, 0);
    }

    /** The swap of steal_recv_buffer and the message record of the MQTT_PUBLISH case, base reference included. */
    method FillMessage(i: nat, m: u32, buf: u32, pub: Incoming)
      requires Valid() && i < |clients| && m < |View().p.msgs| && View().p.msgs[m].refCount == 0
      modifies repr
      ensures Valid()
      ensures var b := old(View()); var c := b.clients[i];
              View() == b.(p := b.p.(msgs := b.p.msgs[m := MessageOf(c, pub)]), clients := b.clients[i := c.(recvBuf := buf)])
    {
      hide ClientSlot.Valid, TopicTrie.Valid, Resources.Valid, Resources.View;
      SlotsHave(i);
      res.FillMsg(m, Msg(clients[i].recvBuf, pub.topicOff, pub.topicLen, pub.payloadOff, pub.payloadLen, pub.qos, pub.retain, 1));
      clients[i].SetRecvBuf(buf);
      Lifted(i);
    }

    /** The end of the MQTT_PUBLISH case: the base reference goes. */
    method DropBaseReference(m: u32, stolen: u32)
      requires Valid() && |clients| > 0 && m < |View().p.msgs| && View().p.msgs[m].bufIdx == stolen && RoomFor(View().p, m)
      modifies repr
      ensures Valid() && View() == old(View()).(p := DropBase(old(View()).p, m, stolen))
    {
      hide ClientSlot.Valid, ClientSlot.View, TopicTrie.Valid, Resources.Valid, Resources.View, DropBase, RoomFor;
      ghost var was := View();
      SlotsHave(0);
      DropBaseOf(res, m, stolen);
      Lifted(0);
      PutSame(was, 0);
    }

    /** The MQTT_PUBLISH case of process_mqtt_packet_ex; started lists the slots a delivery was started for. */
    method Publish(i: nat, pub: Incoming, topic: seq<byte>) returns (reply: Reply, started: seq<int>, found: seq<nat>)
      requires Valid() && Inv(View()) && i < |clients| && clients[i].state == Active && !clients[i].recvPending
      modifies repr
      ensures Valid() && Inv(View()) && CollectedFor(old(trie.nodes[..]), topic, found)
      ensures Published(old(View()), i, pub, found, View(), started) && Answers(old(View()), i, pub, reply)
      ensures ReachesExactly(old(View()), old(trie.View()), old(trie.paths), i, pub, topic, started)
    {
      hide BrokerState.View, BrokerState.Valid, Inv, FirstMatches, Hits, Levels, PublishReceived, Noted, PubReceived,
           FanOut, DropBase, Adopt, DropMessage, ReachesExactly;
      ghost var b := View();
      Fields();
      SlotsHave(i);
      InvHasShapes(b);
      found := MatchTopic(topic);
      PublishKeeps(b, i, pub, Picked(b.nodes, found));
      PublishCases(b, i, pub, Picked(b.nodes, found));
      NotedKeeps(b, i, pub);
      ghost var t := TrieParts();
      assert Collected(b, t, topic, Picked(b.nodes, found));
      DeliveredWhenPlain(b, t, trie.paths, i, pub, topic, Picked(b.nodes, found), PublishReceived(b, i, pub, Picked(b.nodes, found)).1);
      started := [];
      var forward;
      forward, reply := NotePublish(i, pub);
      if forward {
        started := FanOutPacket(i, pub, found);
      }
    }

    /** The MQTT_PUBLISH case from the bytes on: one complete packet in the client's receive buffer. A packet that the parser
        refuses changes nothing and closes the connection; from any other come the offsets and the topic of the publication. */
    method PublishPacket(i: nat, from: nat, total: nat)
      returns (ok: bool, reply: Reply, started: seq<int>, found: seq<nat>, pub: Incoming, m0: Parser.Message)
      requires Valid() && Inv(View()) && i < |clients| && clients[i].state == Active && !clients[i].recvPending
      requires IsPublish(View(), i, from, total)
      modifies repr
      ensures Valid() && Inv(View())
      ensures ok <==> Readable(old(View()), i, from, total)
      ensures !ok ==> View() == old(View())
      ensures ok ==> Arrived(old(View()), i, from, total, m0, pub) && CollectedFor(old(trie.nodes[..]), m0.topic, found)
      ensures ok ==> Published(old(View()), i, pub, found, View(), started) && Answers(old(View()), i, pub, reply)
      ensures ok ==> ReachesExactly(old(View()), old(trie.View()), old(trie.paths), i, pub, m0.topic, started)
    {
      hide BrokerState.View, BrokerState.Valid, Inv, ReachesExactly, Published, Answers, CollectedFor, Packet.ParseFixedHeader, Parser.ParsePublish, OffsetsOf;
      ghost var b := View();
      reply, started, found, pub, m0 := Silent, [], [], NO_PUBLISH, NO_MESSAGE;
      var w := ReadPacket(i, from, total);
      var h := Packet.ReadFixedHeader(w);
      var r, topicAt, payloadAt := Parser.ReadPublish(h.value.flags, w[h.value.size..]);
      ok := r.Ok?;
      if ok {
        m0 := r.value;
        OffsetsArrive(b, i, from, total, m0, from + h.value.size);
        pub := OffsetsOf(from + h.value.size, m0, topicAt, payloadAt);
        reply, started, found := Publish(i, pub, m0.topic);
      }
    }

    method ReadPacket(i: nat, from: nat, total: nat) returns (w: seq<byte>)
      requires Valid() && Framed(View(), i, from, total)
      ensures w == PacketAt(View(), i, from, total)
    {
      hide ClientSlot.Valid, TopicTrie.Valid;
      SlotsHave(i);
      w := res.recvPool.bufs[clients[i].recvBuf][from..from + total];
    }

    method MatchTopic(topic: seq<byte>) returns (found: seq<nat>)
      requires Valid()
      ensures trie.nodes.Length > 0 && found == FirstMatches([], Hits(trie.nodes[..], 0, Levels(topic, 0)))
      ensures forall k :: 0 <= k < |found| ==> found[k] < |View().nodes|
    {
      hide ClientSlot.Valid, ClientSlot.View, Resources.Valid, Resources.View, TrieOk, Hits;
      found := trie.MatchCollect(topic);
      NodesAre();
    }

    /** From msg_pool_alloc to the release of the base reference. */
    method FanOutPacket(i: nat, pub: Incoming, nodes: seq<nat>) returns (started: seq<int>)
      requires Valid() && Inv(View()) && i < |clients| && View().clients[i].state == Active && !View().clients[i].recvPending
      requires forall k :: 0 <= k < |nodes| ==> nodes[k] < |View().nodes|
      modifies repr
      ensures Valid() && forall k :: 0 <= k < |nodes| ==> nodes[k] < |old(View()).nodes|
      ensures AllShaped(old(View()).clients) && forall k :: 0 <= k < |old(View()).p.msgFree| ==> old(View()).p.msgFree[k] < |old(View()).p.msgs|
      ensures (View(), started) == Spread(old(View()), i, pub, Picked(old(View()).nodes, nodes))
    {
      hide BrokerState.View, BrokerState.Valid, Inv, FanOut, DropBase, Adopt, DropMessage, PoolInv, Shaped, RoomFor, Picked;
      ghost var b := View();
      Fields();
      SpreadShapes(b);
      started := [];
      var m, stolen, ok := TakeOver(i, pub);
      if ok {
        ghost var r := View();
        AdoptReady(b, i, m, pub, r);
        ghost var f := FanOut(Fan(r, {}, []), m, pub.qos, Picked(r.nodes, nodes));
        SpreadReady(b, i, m, pub, Picked(r.nodes, nodes), r, f);
        started := SpreadMessage(m, stolen, pub.qos, nodes, f);
      }
    }

    /** A message and a fresh buffer are taken and the publisher's buffer becomes the message's, if both pools allow it. */
    method TakeOver(i: nat, pub: Incoming) returns (m: u32, stolen: u32, ok: bool)
      requires Valid() && i < |clients| && |View().p.msgFree| <= |View().p.msgs|
      modifies repr
      ensures Valid()
      ensures var b := old(View());
              && ok == (b.p.msgFree != [] && b.p.bufFree != [])
              && (b.p.msgFree == [] ==> View() == b)
              && (b.p.msgFree != [] ==> m == b.p.msgFree[|b.p.msgFree| - 1] && m < |b.p.msgs|)
              && (b.p.msgFree != [] && !ok ==> View() == DropMessage(b, m))
              && (ok ==> View() == Adopt(b, i, m, pub) && stolen == b.clients[i].recvBuf)
    {
      hide BrokerState.View, BrokerState.Valid;
      ghost var b := View();
      Fields();
      stolen, ok := INVALID, false;
      m := TakeMessage();
      if m == INVALID {
        return;
      }
      var buf := TakeBuffer();
      Fields();
      if buf == INVALID {
        ReturnMessage(m);
        assert View().p.msgFree == b.p.msgFree;
        return;
      }
      SlotsHave(i);
      stolen, ok := clients[i].recvBuf, true;
      FillMessage(i, m, buf, pub);
    }

    /** The fan-out of an adopted message and the release of its base reference. */
    method SpreadMessage(m: u32, stolen: u32, qos: byte, nodes: seq<nat>, ghost f: Fan) returns (started: seq<int>)
      requires Valid() && AllShaped(View().clients) && |View().clients| > 0 && forall k :: 0 <= k < |nodes| ==> nodes[k] < |View().nodes|
      requires f == FanOut(Fan(View(), {}, []), m, qos, Picked(View().nodes, nodes))
      requires m < |f.b.p.msgs| && f.b.p.msgs[m].bufIdx == stolen && |f.b.clients| == |View().clients|
      requires RoomFor(f.b.p, m) && PoolInv(View(), multiset{m})
      modifies repr
      ensures Valid() && View() == f.b.(p := DropBase(f.b.p, m, stolen)) && started == f.started
    {
      hide BrokerState.View, BrokerState.Valid, FanOut, DropBase, PoolInv, RoomFor;
      NodesAre();
      ghost var sent;
      sent, started := FanOutMatches(m, qos, nodes);
      Fields();
      DropBaseReference(m, stolen);
    }
  }

  method DropBaseOf(a: Resources, m: u32, stolen: u32)
    requires a.Valid() && m < |a.View().msgs| && a.View().msgs[m].bufIdx == stolen && RoomFor(a.View(), m)
    modifies a.repr
    ensures a.Valid() && a.View() == DropBase(old(a.View()), m, stolen)
  {
    var n := a.msgPool.Unref(m);
    if n == 0 {
      a.FreeBuf(stolen);
      a.FreeMsg(m);
    }
  }

  /** Everything that does not depend on the number of clients. */
  method NewParts(messages: nat, buffers: nat, maxFds: nat, trieNodes: nat, bufSize: nat)
    returns (shared: Resources, fds: array<int>, tree: TopicTrie, ghost space: set<object>)
    requires messages < INVALID && buffers < INVALID && trieNodes >= 2
    ensures fresh(space) && space == {fds, tree, tree.nodes} + shared.repr && {fds, tree, tree.nodes} !! shared.repr
    ensures shared.Valid() && tree.Valid()
    ensures fds[..] == seq(maxFds, _ => -1) && tree.nodes.Length == trieNodes && forall k :: 0 <= k < trieNodes ==> tree.nodes[k].subs == map[]
    ensures var p := shared.View();
            && |p.msgs| == |p.msgFree| == messages && |p.bufs| == |p.bufFree| == buffers && p.sqRoom == 0 && p.now == 0
            && (forall i :: 0 <= i < messages ==> p.msgs[i] == Msg(0, 0, 0, 0, 0, 0, false, 0) && p.msgFree[i] == messages - 1 - i)
            && (forall i :: 0 <= i < buffers ==> p.bufs[i] == seq(bufSize, _ => 0) && p.bufFree[i] == buffers - 1 - i)
  {
    hide TrieOk, SubsAt;
    shared := new Resources(messages, buffers, bufSize);
    fds := new int[maxFds](_ => -1);
    tree := new TopicTrie(trieNodes);
    space := {fds, tree, tree.nodes} + shared.repr;
  }

  /** broker_init */
  method BrokerInit(n: nat, inflight: nat, capacity: nat, messages: nat, maxFds: nat, trieNodes: nat, bufSize: nat) returns (b: BrokerState)
    requires 0 < n <= MAX_CLIENTS && messages < INVALID && ValidMax(inflight) && 0 < capacity && trieNodes >= 2
    ensures fresh(b) && b.Valid() && fresh(b.repr)
    ensures b.View() == Init(n, inflight, capacity, messages, maxFds, trieNodes, bufSize)
  {
    hide BrokerState.Valid, BrokerState.View, ClientSlot.Valid, ClientSlot.View, Resources.Valid, Resources.View, TopicTrie.Valid;
    hide LinkAfter, Init, FreeRecord;
    var shared, fds, tree, rest := NewParts(messages, n, maxFds, trieNodes, bufSize);
    var slots, space := MakeSlots(n, inflight, capacity);
    b := new BrokerState(shared, slots, space, fds, tree, inflight);
    assert b.repr == {b} + rest + space;
    IsInit(b.View(), n, inflight, capacity, messages, maxFds, trieNodes, bufSize);
  }

  lemma IsInit(b: Broker, n: nat, inflight: nat, capacity: nat, messages: nat, maxFds: nat, trieNodes: nat, bufSize: nat)
    requires 0 < n <= MAX_CLIENTS && messages < INVALID
    requires |b.p.msgs| == |b.p.msgFree| == messages && |b.p.bufs| == |b.p.bufFree| == n && b.p.sqRoom == 0 && b.p.now == 0
    requires forall i :: 0 <= i < messages ==> b.p.msgs[i] == Msg(0, 0, 0, 0, 0, 0, false, 0) && b.p.msgFree[i] == messages - 1 - i
    requires forall i :: 0 <= i < n ==> b.p.bufs[i] == seq(bufSize, _ => 0) && b.p.bufFree[i] == n - 1 - i
    requires |b.clients| == n && forall i :: 0 <= i < n ==> b.clients[i] == FreeRecord(LinkAfter(i, n), inflight, capacity)
    requires |b.fdToSlot| == maxFds && forall i :: 0 <= i < maxFds ==> b.fdToSlot[i] == -1
    requires |b.nodes| == trieNodes && forall k :: 0 <= k < trieNodes ==> b.nodes[k] == map[]
    requires b.freeHead == 0 && b.activeCount == b.dormantCount == 0 && b.maxInflight == inflight && b.recvs == {}
    ensures b == Init(n, inflight, capacity, messages, maxFds, trieNodes, bufSize)
  {
    hide Blank;
    var r := Init(n, inflight, capacity, messages, maxFds, trieNodes, bufSize);
    assert b.p.msgs == r.p.msgs && b.p.msgFree == r.p.msgFree && b.p.bufs == r.p.bufs && b.p.bufFree == r.p.bufFree;
    assert b.clients == r.clients && b.fdToSlot == r.fdToSlot && b.nodes == r.nodes;
  }
}
