/** The in-place inflight table of a client slot (src/broker/client.h): two entry arrays and the
    packet-id hash table. Every method is tied to the value-level operation of module Inflight. */
module InflightTable {
  import opened Common
  import opened Probing
  import opened Inflight
  import opened PacketIdIndex

  class Table {
    const n: nat // max_inflight
    const hot: array<Hot>
    const cold: array<Cold>
    const pktHash: array<u16>
    var count: int
    var freeHint: int
    var generation: u16

    ghost function View(): Slots
      reads this, hot, cold
    {
      Slots(hot[..], cold[..], count, freeHint, generation)
    }

    ghost predicate Valid()
      reads this, hot, cold, pktHash
    {
      && hot.Length == cold.Length == n
      && pktHash.Length == 2 * n
      && Consistent(View())
      && Indexes(hot[..], pktHash[..])
    }

    ghost function Repr(): set<object> {
      {this, hot, cold, pktHash}
    }

    /** The inflight part of client_init. */
    constructor (maxInflight: nat)
      requires ValidMax(maxInflight)
      ensures Valid() && fresh(Repr())
      ensures View() == Blank(maxInflight)
    {
      n := maxInflight;
      hot := new Hot[maxInflight](_ => BLANK_HOT);
      cold := new Cold[maxInflight](_ => BLANK_COLD);
      pktHash := new u16[2 * maxInflight](_ => EMPTY);
      count, freeHint, generation := 0, 0, 0;
      new;
      assert View() == Blank(n);
      BlankIsFree(n);
    }

    /** The search of client_inflight_alloc and client_inflight_track_incoming. */
    method FindFree() returns (slot: nat)
      requires Valid()
      ensures slot == Search(hot[..], freeHint, 0)
    {
      slot := freeHint;
      var searched := 0;
      while hot[slot].state != Free && searched < n
        invariant slot < n && 0 <= searched <= n
        invariant Search(hot[..], slot, searched) == Search(hot[..], freeHint, 0)
        decreases n - searched
      {
        slot := Next(slot, n);
        searched := searched + 1;
      }
    }

    /** client_inflight_alloc */
    method AllocOutgoing(qos: byte, msgIdx: u32, deadline: int) returns (slot: int, packetId: u16)
      requires Valid()
      modifies this, hot, cold
      ensures Valid()
      ensures Taken(View(), slot, packetId) == Alloc(old(View()), qos, msgIdx, deadline)
    {
      AllocKeeps(View(), qos, msgIdx, deadline);
      slot, packetId := -1, 0;
      if count >= n {
        return;
      }
      var s := FindFree();
      if hot[s].state != Free {
        return;
      }
      packetId := AssignId(s, generation, n);
      StillIndexed(hot[..], pktHash[..], s, Hot(packetId, if qos == 1 then WaitPuback else WaitPubrec, OUTGOING, msgIdx));
      hot[s] := Hot(packetId, if qos == 1 then WaitPuback else WaitPubrec, OUTGOING, msgIdx);
      cold[s] := Cold(deadline, qos, 0);
      count := count + 1;
      freeHint := Next(s, n);
      if s == 0 {
        generation := (generation + 1) % 0x1_0000;
      }
      slot := s;
      assert hot[..] == old(hot[..])[s := hot[s]];
      assert cold[..] == old(cold[..])[s := cold[s]];
    }

    /** The duplicate check of client_inflight_track_incoming: the hinted slot, then every slot in order. */
    method FindTracked(packetId: u16) returns (slot: nat)
      requires Valid()
      ensures slot == TrackedAt(hot[..], packetId, 0)
    {
      var hint := Direct(packetId, n);
      if hot[hint].state != Free && hot[hint].packetId == packetId && hot[hint].direction == INCOMING {
        return hint;
      }
      slot := 0;
      while slot < n && !(hot[slot].state != Free && hot[slot].packetId == packetId && hot[slot].direction == INCOMING)
        invariant slot <= n
        invariant TrackedAt(hot[..], packetId, slot) == TrackedAt(hot[..], packetId, 0)
      {
        slot := slot + 1;
      }
    }

    /** client_inflight_track_incoming */
    method TrackIncoming(packetId: u16, deadline: int) returns (slot: int)
      requires Valid()
      modifies this, hot, cold, pktHash
      ensures Valid()
      ensures Taken(View(), slot, packetId) == Track(old(View()), packetId, deadline)
    {
      TrackKeeps(View(), packetId, deadline);
      if count >= n {
        return -1;
      }
      var known := FindTracked(packetId);
      if known < n {
        return known;
      }
      var s := FindFree();
      if hot[s].state != Free {
        return -1;
      }
      hot[s] := Hot(packetId, WaitPubrel, INCOMING, INVALID);
      cold[s] := Cold(deadline, 2, 0);
      count := count + 1;
      freeHint := Next(s, n);
      HashInsert(packetId, s, old(hot[..]));
      slot := s;
      assert hot[..] == old(hot[..])[s := hot[s]];
      assert cold[..] == old(cold[..])[s := cold[s]];
    }

    /** client_inflight_find_direct */
    method LookupDirect(packetId: u16) returns (slot: int)
      requires Valid()
      ensures slot == FindDirect(hot[..], packetId)
    {
      if packetId == 0 {
        return -1;
      }
      var s := Direct(packetId, n);
      return if hot[s].state != Free && hot[s].packetId == packetId then s else -1;
    }

    /** client_inflight_find: the direct slot, then the hash table. */
    method Lookup(packetId: u16) returns (slot: int)
      requires Valid()
      ensures slot == Find(hot[..], packetId)
    {
      if packetId == 0 {
        return -1;
      }
      var direct := LookupDirect(packetId);
      if direct >= 0 {
        return direct;
      }
      slot := Probe(packetId);
    }

    /** The hash-table part of client_inflight_find. */
    method Probe(packetId: u16) returns (slot: int)
      requires Valid()
      ensures slot == if TrackedAt(hot[..], packetId, 0) < n then TrackedAt(hot[..], packetId, 0) else -1
    {
      var idx := Natural(packetId, pktHash.Length);
      var probe := 0;
      ghost var h: seq<int> := pktHash[..];
      SomeCellIsEmpty(hot[..], h);
      ghost var stop :| 0 <= stop < |h| && h[stop] == EMPTY;
      while probe < pktHash.Length
        invariant 0 <= idx < |h|
        invariant probe + Dist(idx, stop, |h|) == Dist(Natural(packetId, |h|), stop, |h|)
        invariant forall x :: 0 <= x < |h| && x != idx && Cyc(Natural(packetId, |h|), x, idx)
                    ==> h[x] != EMPTY && hot[h[x]].packetId != packetId
        decreases pktHash.Length - probe
      {
        var s := pktHash[idx];
        if s == EMPTY {
          MissMeansUntracked(hot[..], h, packetId, idx);
          return -1;
        }
        if s < n && hot[s].state != Free && hot[s].packetId == packetId {
          return s;
        }
        idx := Next(idx, pktHash.Length);
        probe := probe + 1;
      }
      assert false;
    }

    /** client_inflight_free_slot */
    method Release(slot: nat)
      requires Valid() && slot < n
      modifies this, hot, pktHash
      ensures Valid()
      ensures View() == FreeSlot(old(View()), slot)
    {
      FreeSlotKeeps(View(), slot);
      if hot[slot].state != Free {
        ghost var e := hot[slot].(msgIdx := INVALID, state := Free);
        if hot[slot].direction == INCOMING {
          HashRemove(hot[slot].packetId, slot, e);
        } else {
          StillIndexed(hot[..], pktHash[..], slot, e);
        }
        hot[slot] := hot[slot].(msgIdx := INVALID, state := Free);
        if count > 0 {
          count := count - 1;
        }
        assert hot[..] == old(hot[..])[slot := e];
      }
    }

    /** client_inflight_free_all: the early exit is sound because a zero count means an empty hash table. */
    method ReleaseAll()
      requires Valid()
      modifies this, hot, cold, pktHash
      ensures Valid()
      ensures View() == FreeAll(old(View()))
      ensures forall p :: 0 <= p < pktHash.Length ==> pktHash[p] == EMPTY
    {
      FreeAllKeeps(View());
      if count == 0 {
        CountDecides(hot[..]);
        return;
      }
      forall i | 0 <= i < n { hot[i] := BLANK_HOT; }
      forall i | 0 <= i < n { cold[i] := BLANK_COLD; }
      forall i | 0 <= i < pktHash.Length { pktHash[i] := EMPTY; }
      count, freeHint := 0, 0;
      assert hot[..] == Blank(n).hot;
      assert cold[..] == Blank(n).cold;
    }

    /** The inflight part of client_init on a slot used before. */
    method Reset()
      requires Valid()
      modifies this, hot, cold, pktHash
      ensures Valid() && View() == Blank(n)
    {
      forall i | 0 <= i < n { hot[i] := BLANK_HOT; }
      forall i | 0 <= i < n { cold[i] := BLANK_COLD; }
      forall i | 0 <= i < pktHash.Length { pktHash[i] := EMPTY; }
      count, freeHint, generation := 0, 0, 0;
      assert View() == Blank(n);
      BlankIsFree(n);
    }

    /** inflight_hash_insert: the first EMPTY cell from the natural position receives the slot. */
    method HashInsert(packetId: u16, s: u16, ghost before: seq<Hot>)
      requires hot.Length == n && pktHash.Length == 2 * n && |before| == n
      requires Indexes(before, pktHash[..])
      requires s < n && !Tracked(before[s]) && Tracked(hot[s]) && hot[s].packetId == packetId
      requires hot[..] == before[s := hot[s]]
      modifies pktHash
      ensures Indexes(hot[..], pktHash[..])
    {
      var idx := Natural(packetId, pktHash.Length);
      var probe := 0;
      SomeCellIsEmpty(before, pktHash[..]);
      ghost var e :| 0 <= e < pktHash.Length && pktHash[e] == EMPTY;
      while probe < pktHash.Length
        invariant 0 <= idx < pktHash.Length
        invariant probe + Dist(idx, e, pktHash.Length) == Dist(Natural(packetId, pktHash.Length), e, pktHash.Length)
        invariant forall x :: 0 <= x < pktHash.Length && x != idx && Cyc(Natural(packetId, pktHash.Length), x, idx)
                    ==> pktHash[x] != EMPTY
        invariant pktHash[..] == old(pktHash[..])
        decreases pktHash.Length - probe
      {
        if pktHash[idx] == EMPTY {
          InsertKeeps(before, pktHash[..], s, hot[s], idx);
          pktHash[idx] := s;
          assert pktHash[..] == old(pktHash[..])[idx := s];
          return;
        }
        idx := Next(idx, pktHash.Length);
        probe := probe + 1;
      }
      assert false;
    }

    /** inflight_hash_remove: backward-shift deletion of the cell that holds slot s.
        The entry in slot s is about to become e, which is not tracked. */
    method HashRemove(packetId: u16, ghost s: nat, ghost e: Hot)
      requires Valid()
      requires s < n && Tracked(hot[s]) && hot[s].packetId == packetId && !Tracked(e)
      modifies pktHash
      ensures Indexes(hot[..][s := e], pktHash[..])
    {
      var idx := Natural(packetId, pktHash.Length);
      var probe := 0;
      ghost var h0 := pktHash[..];
      SomeCellIsEmpty(hot[..], h0);
      ghost var stop :| 0 <= stop < |h0| && h0[stop] == EMPTY;
      ProbeCannotMiss(hot[..], h0, s, stop);
      ghost var at :| 0 <= at < |h0| && h0[at] == s && at != stop && !Cyc(Natural(packetId, |h0|), stop, at);
      assert ClearUpTo(hot[..], h0, at, -1);
      while probe < pktHash.Length
        invariant 0 <= idx < pktHash.Length
        invariant probe + Dist(idx, at, |h0|) == Dist(Natural(packetId, |h0|), at, |h0|)
        invariant pktHash[..] == h0
        decreases pktHash.Length - probe
      {
        var found := pktHash[idx];
        if found == EMPTY {
          assert false;
        }
        if hot[found].packetId == packetId {
          assert found == s;
          ShiftStart(hot[..], h0, idx);
          ShiftBack(hot, pktHash, idx, s, e);
          return;
        }
        idx := Next(idx, pktHash.Length);
        probe := probe + 1;
      }
      assert false;
    }
  }

  /** The shift loop of inflight_hash_remove: gap is the hole, j scans ahead of it. The entry in slot s
      has left the table and is about to become e. */
  method ShiftBack(hot: array<Hot>, pktHash: array<u16>, idx: nat, ghost s: nat, ghost e: Hot)
    requires idx < pktHash.Length && s < hot.Length && !Tracked(e)
    requires Shifting(hot[..], pktHash[..][idx := EMPTY], s, idx, idx)
    requires exists stop :: 0 <= stop < pktHash.Length && stop != idx && pktHash[stop] == EMPTY
    modifies pktHash
    ensures Indexes(hot[..][s := e], pktHash[..])
  {
    var gap, j := idx, idx;
    ghost var entries: seq<Hot>, raw: seq<int> := hot[..], pktHash[..];
    ghost var stop :| 0 <= stop < |raw| && stop != gap && raw[stop] == EMPTY;
    while true
      invariant raw == pktHash[..]
      invariant 0 <= gap < |raw| && 0 <= j < |raw| && stop != gap && raw[stop] == EMPTY && stop != j
      invariant Shifting(entries, raw[gap := EMPTY], s, gap, j)
      decreases Dist(j, stop, |raw|)
    {
      ShiftTurn(entries, raw, s, gap, j, stop, e);
      j := Next(j, pktHash.Length);
      var jSlot := pktHash[j];
      if jSlot == EMPTY {
        break;
      }
      if ShouldShift(Natural(hot[jSlot].packetId, pktHash.Length), gap, j) {
        pktHash[gap] := jSlot;
        raw := raw[gap := jSlot];
        gap := j;
      }
    }
    pktHash[gap] := EMPTY;
    assert pktHash[..] == raw[gap := EMPTY];
  }
}
