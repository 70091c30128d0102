/** One orphan per slot is not enough: the state that breaks the buffer partition is reached in five events. */
module Orphans {
  import opened Common
  import opened Inflight
  import opened Shared
  import opened Egress
  import opened Ceremony
  import opened Broker
  import opened BrokerInv
  import opened SlotSteps
  import opened CloseSteps
  import opened Runs

  /** A fresh client of descriptor fd in slot i that has nothing queued and nothing inflight. */
  ghost predicate FreshAt(b: Broker, i: nat, fd: int) {
    && i < |b.clients| && 0 <= fd < |b.fdToSlot| && b.fdToSlot[fd] == i
    && var c := b.clients[i];
       && c.state == Active && c.fd == fd && c.cleanSession && c.queue == [] && c.slots.count == 0 && c.recvBuf != INVALID
  }

  lemma Accepted(b: Broker, fd: int)
    requires Inv(b) && b.freeHead < |b.clients| && 0 <= fd < |b.fdToSlot| && b.p.bufFree != []
    ensures var r := AllocSlot(b, fd).b; var i := b.freeHead;
            && FreshAt(r, i, fd) && !r.clients[i].recvPending && r.clients[i].orphan == b.clients[i].orphan
            && r.clients[i].generation == (b.clients[i].generation + 1) % 0x100
            && |r.p.bufFree| == |b.p.bufFree| - 1 && r.recvs == b.recvs
            && |r.fdToSlot| == |b.fdToSlot| && |r.clients| == |b.clients|
  {
    hide SlotInv, SubsInv, RecvInv, ClientsWell, Counted, Owners, Holders;
    TakeBuf(b.p, multiset{} + Owners(b.clients), Holders(b.clients));
  }

  lemma Receiving(b: Broker, i: nat, fd: int)
    requires FreshAt(b, i, fd) && !b.clients[i].recvPending
    ensures var r := SubmitRecv(b, i, false);
            && FreshAt(r, i, fd) && r.clients[i] == b.clients[i].(recvPending := true)
            && r.recvs == b.recvs + {Recv(i, b.clients[i].generation, b.clients[i].recvBuf)}
            && r.p == b.p && |r.clients| == |b.clients| && |r.fdToSlot| == |b.fdToSlot|
  {
  }

  /** Closing a connection with a receive outstanding leaves its buffer as the slot's orphan. */
  lemma ClosedWhileReceiving(b: Broker, i: nat, fd: int)
    requires FreshAt(b, i, fd) && b.clients[i].recvPending
    ensures Closes(b, fd) && SlotOf(b, fd) == i
    ensures var r := CloseDone(b, fd);
            && r.freeHead == i && |r.clients| == |b.clients| && r.clients[i].orphan == b.clients[i].recvBuf
            && r.clients[i].generation == b.clients[i].generation
            && |r.fdToSlot| == |b.fdToSlot| && r.fdToSlot[fd] == -1
            && r.p == b.p && r.recvs == b.recvs
  {
    hide FreeAll;
    assert Disconnect(At(b, i)) == At(b, i);
  }

  lemma OneMore(b: Broker, e: Event, es: seq<Event>)
    requires Inv(b) && Possible(b, e) && Shapes(b) && Inv(Step(b, e)) && Feasible(Step(b, e), es)
    ensures Feasible(b, [e] + es) && Run(b, [e] + es) == Run(Step(b, e), es)
  {
    hide Inv, Possible, Step, Shapes;
    assert ([e] + es)[1..] == es && ([e] + es)[0] == e;
  }

  lemma NoMore(b: Broker)
    requires Inv(b)
    ensures Feasible(b, []) && Run(b, []) == b
  {
    hide Inv;
  }

  /** From any state in which the next free slot has no orphan and no receive outstanding, and two buffers are free:
      accept, receive, close, accept, receive. A close now would overwrite the orphan. */
  lemma OrphanOverwriteIsReachable(b: Broker, fd: int) returns (es: seq<Event>)
    requires b.freeHead < |b.clients| && 0 <= fd < |b.fdToSlot| && b.fdToSlot[fd] == -1 && |b.p.bufFree| >= 2
    requires b.clients[b.freeHead].orphan == INVALID && forall r :: r in b.recvs ==> r.slot != b.freeHead
    requires Inv(b)
    ensures Feasible(b, es)
    ensures var r := Run(b, es); Closes(r, fd) && OrphanTaken(r.clients[SlotOf(r, fd)]) && r.clients[SlotOf(r, fd)].state == Active
    ensures !Inv(CloseDone(Run(b, es), fd))
  {
    hide Inv, FreshAt, AllocSlot, SubmitRecv, CloseDone, Feasible, Run;
    var i := b.freeHead;
    var e1, e2, e3 := Accept(fd), StartRecv(i, false), CloseCqe(fd);
    Accepted(b, fd);
    StepKeeps(b, e1);
    var b1 := Step(b, e1);
    Receiving(b1, i, fd);
    FreshFacts(b1, i, fd);
    StepKeeps(b1, e2);
    var b2 := Step(b1, e2);
    ClosedWhileReceiving(b2, i, fd);
    StepKeeps(b2, e3);
    var b3 := Step(b2, e3);
    FreshFacts(b2, i, fd);
    Accepted(b3, fd);
    StepKeeps(b3, e1);
    var b4 := Step(b3, e1);
    Receiving(b4, i, fd);
    FreshFacts(b4, i, fd);
    StepKeeps(b4, e2);
    var b5 := Step(b4, e2);
    FreshFacts(b5, i, fd);
    NoMore(b5);
    OneMore(b4, e2, []);
    OneMore(b3, e1, [e2] + []);
    OneMore(b2, e3, [e1] + ([e2] + []));
    OneMore(b1, e2, [e3] + ([e1] + ([e2] + [])));
    es := [e1] + ([e2] + ([e3] + ([e1] + ([e2] + []))));
    OneMore(b, e1, [e2] + ([e3] + ([e1] + ([e2] + []))));
    CloseKeepsIff(b5, fd);
  }

  /** One more event, the start of a close, and the receive in flight frees an orphan that the older receive still
      targets: when it completes, the invariants are gone. */
  lemma ForeignOrphanIsReachable(b: Broker, fd: int) returns (es: seq<Event>, r: Recv)
    requires b.freeHead < |b.clients| && 0 <= fd < |b.fdToSlot| && b.fdToSlot[fd] == -1 && |b.p.bufFree| >= 2
    requires b.clients[b.freeHead].orphan == INVALID && forall r :: r in b.recvs ==> r.slot != b.freeHead
    requires Inv(b)
    ensures Feasible(b, es)
    ensures r in Run(b, es).recvs && r.slot < |Run(b, es).clients| && FreesForeignOrphan(Run(b, es), r)
    ensures forall res :: !Inv(RecvDone(Run(b, es), r, res))
  {
    hide Inv, Feasible, Run, CloseDone;
    var first := OrphanOverwriteIsReachable(b, fd);
    var b1 := Run(b, first);
    r := ClosingReceive(b1, fd);
    StepKeeps(b1, StartClose(fd));
    NoMore(Step(b1, StartClose(fd)));
    OneMore(b1, StartClose(fd), []);
    es := first + ([StartClose(fd)] + []);
    Joined(b, first, [StartClose(fd)] + []);
    forall res ensures !Inv(RecvDone(Run(b, es), r, res)) {
      RecvDoneKeepsIff(Run(b, es), r, res);
    }
  }

  lemma ClosingReceive(b: Broker, fd: int) returns (r: Recv)
    requires Inv(b) && Closes(b, fd) && OrphanTaken(b.clients[SlotOf(b, fd)]) && b.clients[SlotOf(b, fd)].state == Active
    ensures r in SubmitClose(b, fd).recvs && r.slot < |b.clients| && FreesForeignOrphan(SubmitClose(b, fd), r)
  {
    hide PoolInv, SlotInv, SubsInv;
    var i := SlotOf(b, fd);
    var c := b.clients[i];
    assert SlotRecvs(b.recvs, i, c);
    r := Recv(i, c.generation, c.recvBuf);
  }

  lemma {:induction false} Joined(b: Broker, es: seq<Event>, more: seq<Event>)
    requires Inv(b) && Feasible(b, es) && Feasible(Run(b, es), more)
    ensures Feasible(b, es + more) && Run(b, es + more) == Run(Run(b, es), more)
    decreases es
  {
    hide Inv, Possible, Step;
    if es == [] {
      assert es + more == more;
    } else {
      StepKeeps(b, es[0]);
      assert (es + more)[0] == es[0] && (es + more)[1..] == es[1..] + more;
      Joined(Step(b, es[0]), es[1..], more);
    }
  }

  lemma FreshFacts(b: Broker, i: nat, fd: int)
    requires FreshAt(b, i, fd)
    ensures i < |b.clients| && b.clients[i].state == Active && b.clients[i].recvBuf != INVALID
    ensures Closes(b, fd) && SlotOf(b, fd) == i
  {
  }
}
