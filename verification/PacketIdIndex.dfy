/** The packet-id hash table of one client: linear probing with backward-shift deletion
    (src/broker/client.h). A cell holds an inflight slot number or EMPTY. */
module PacketIdIndex {
  import opened Common
  import opened Probing
  import opened Inflight

  const EMPTY: u16 := 0xFFFF // INFLIGHT_HASH_EMPTY

  /** packet_id & inflight_hash_mask */
  function Natural(id: int, n: int): (p: int)
    requires n > 0
    ensures 0 <= p < n
  {
    id % n
  }

  /** The table holds tracked slots only, each slot once. */
  ghost predicate HoldsTracked(hot: seq<Hot>, h: seq<int>) {
    && (forall p :: 0 <= p < |h| && h[p] != EMPTY ==> 0 <= h[p] < |hot| && Tracked(hot[h[p]]))
    && (forall p, q :: 0 <= p < q < |h| && h[p] != EMPTY ==> h[p] != h[q])
  }

  /** Walking from the natural cell of the entry at p up to p crosses no EMPTY cell, other than possibly gap. */
  ghost predicate ClearUpTo(hot: seq<Hot>, h: seq<int>, p: int, gap: int)
    requires 0 <= p < |h| && 0 <= h[p] < |hot|
  {
    forall x :: 0 <= x < |h| && Cyc(Natural(hot[h[p]].packetId, |h|), x, p) ==> h[x] != EMPTY || x == gap
  }

  /** The probe invariant. */
  ghost predicate Indexes(hot: seq<Hot>, h: seq<int>) {
    && 0 < |hot| <= MAX_INFLIGHT
    && |h| == 2 * |hot|
    && HoldsTracked(hot, h)
    && (forall p :: 0 <= p < |h| && h[p] != EMPTY ==> ClearUpTo(hot, h, p, -1))
    && (forall s :: 0 <= s < |hot| && Tracked(hot[s]) ==> s in h)
  }

  /** Load never exceeds one half, so every probe and shift loop meets an EMPTY cell. */
  lemma SomeCellIsEmpty(hot: seq<Hot>, h: seq<int>)
    requires 0 < |hot| && |h| == 2 * |hot| && HoldsTracked(hot, h)
    ensures exists p :: 0 <= p < |h| && h[p] == EMPTY
  {
    if forall p :: 0 <= p < |h| ==> h[p] != EMPTY {
      Pigeonhole(h, |hot|);
      assert false;
    }
  }

  /** Filling the first EMPTY cell met from the natural position of a newly tracked slot keeps the invariant. */
  lemma InsertKeeps(hot: seq<Hot>, h: seq<int>, s: nat, e: Hot, p: nat)
    requires Indexes(hot, h) && s < |hot| && !Tracked(hot[s]) && Tracked(e)
    requires p < |h| && h[p] == EMPTY
    requires forall x :: 0 <= x < |h| && x != p && Cyc(Natural(e.packetId, |h|), x, p) ==> h[x] != EMPTY
    ensures Indexes(hot[s := e], h[p := s])
  {
    var hot', h' := hot[s := e], h[p := s];
    forall q | 0 <= q < |h'| && h'[q] != EMPTY
      ensures 0 <= h'[q] < |hot'| && Tracked(hot'[h'[q]]) && ClearUpTo(hot', h', q, -1)
    {
      if q != p {
        assert ClearUpTo(hot, h, q, -1);
      }
    }
    forall t | 0 <= t < |hot'| && Tracked(hot'[t])
      ensures t in h'
    {
      if t == s {
        assert h'[p] == s;
      } else {
        var q :| 0 <= q < |h| && h[q] == t;
        assert h'[q] == t;
      }
    }
  }

  /** A probe that follows non-EMPTY cells from the natural position cannot miss a tracked id. */
  lemma ProbeCannotMiss(hot: seq<Hot>, h: seq<int>, s: nat, stop: nat)
    requires Indexes(hot, h) && s < |hot| && Tracked(hot[s])
    requires stop < |h| && h[stop] == EMPTY
    ensures exists p :: 0 <= p < |h| && h[p] == s && p != stop
                        && !Cyc(Natural(hot[s].packetId, |h|), stop, p)
  {
    var p :| 0 <= p < |h| && h[p] == s;
    assert ClearUpTo(hot, h, p, -1);
  }

  /** Meeting EMPTY on the walk from an id's natural position means that no entry tracks the id. */
  lemma MissMeansUntracked(hot: seq<Hot>, h: seq<int>, id: u16, stop: nat)
    requires Indexes(hot, h) && stop < |h| && h[stop] == EMPTY
    requires forall x :: 0 <= x < |h| && x != stop && Cyc(Natural(id, |h|), x, stop)
               ==> h[x] != EMPTY && hot[h[x]].packetId != id
    ensures TrackedAt(hot, id, 0) == |hot|
  {
    var s := TrackedAt(hot, id, 0);
    if s < |hot| {
      ProbeCannotMiss(hot, h, s, stop);
    }
  }

  /** Changing an entry that is not tracked into another untracked one leaves the table right. */
  lemma StillIndexed(hot: seq<Hot>, h: seq<int>, s: nat, e: Hot)
    requires Indexes(hot, h) && s < |hot| && !Tracked(hot[s]) && !Tracked(e)
    ensures Indexes(hot[s := e], h)
  {
    forall p | 0 <= p < |h| && h[p] != EMPTY
      ensures ClearUpTo(hot[s := e], h, p, -1)
    {
      assert ClearUpTo(hot, h, p, -1);
    }
  }

  /** State of the shift loop: gap is EMPTY, j is the scan position, removed is the slot taken out. */
  ghost predicate Shifting(hot: seq<Hot>, h: seq<int>, removed: int, gap: int, j: int) {
    && 0 < |hot| <= MAX_INFLIGHT
    && |h| == 2 * |hot|
    && 0 <= gap < |h| && 0 <= j < |h| && h[gap] == EMPTY
    && HoldsTracked(hot, h)
    && removed !in h
    && (forall s :: 0 <= s < |hot| && s != removed && Tracked(hot[s]) ==> s in h)
    && (forall x :: 0 <= x < |h| && Cyc(gap, x, j) && x != gap ==> h[x] != EMPTY)
    && (forall p :: 0 <= p < |h| && h[p] != EMPTY ==> PathOk(hot, h, gap, j, p))
  }

  /** Only the gap may interrupt a path, and only for entries the scan has not reached yet. */
  ghost predicate PathOk(hot: seq<Hot>, h: seq<int>, gap: int, j: int, p: int)
    requires 0 <= p < |h| && 0 <= h[p] < |hot|
  {
    && ClearUpTo(hot, h, p, gap)
    && (Cyc(Natural(hot[h[p]].packetId, |h|), gap, p) ==> !Cyc(gap, p, j))
  }

  lemma ShiftStart(hot: seq<Hot>, h: seq<int>, p: nat)
    requires Indexes(hot, h) && p < |h| && h[p] != EMPTY
    ensures Shifting(hot, h[p := EMPTY], h[p], p, p)
  {
    var h' := h[p := EMPTY];
    forall s | 0 <= s < |hot| && s != h[p] && Tracked(hot[s])
      ensures s in h'
    {
      var q :| 0 <= q < |h| && h[q] == s;
      assert h'[q] == s;
    }
    forall q | 0 <= q < |h'| && h'[q] != EMPTY
      ensures PathOk(hot, h', p, p, q)
    {
      assert ClearUpTo(hot, h, q, -1);
    }
  }

  /** The loop's test: the entry at j may move into the gap exactly when its path crosses the gap. */
  predicate ShouldShift(natural: int, gap: int, j: int) {
    if j > gap then natural <= gap || natural > j else natural <= gap && natural > j
  }

  lemma ShiftStay(hot: seq<Hot>, h: seq<int>, removed: int, gap: int, j: int)
    requires Shifting(hot, h, removed, gap, j)
    requires h[Next(j, |h|)] != EMPTY
    requires !ShouldShift(Natural(hot[h[Next(j, |h|)]].packetId, |h|), gap, Next(j, |h|))
    ensures Shifting(hot, h, removed, gap, Next(j, |h|))
  {
    var j' := Next(j, |h|);
    forall p | 0 <= p < |h| && h[p] != EMPTY
      ensures PathOk(hot, h, gap, j', p)
    {
      assert PathOk(hot, h, gap, j, p);
    }
  }

  lemma ShiftMove(hot: seq<Hot>, h: seq<int>, removed: int, gap: int, j: int)
    requires Shifting(hot, h, removed, gap, j)
    requires h[Next(j, |h|)] != EMPTY
    requires ShouldShift(Natural(hot[h[Next(j, |h|)]].packetId, |h|), gap, Next(j, |h|))
    ensures Shifting(hot, h[gap := h[Next(j, |h|)]][Next(j, |h|) := EMPTY], removed, Next(j, |h|), Next(j, |h|))
  {
    var j' := Next(j, |h|);
    var h' := h[gap := h[j']][j' := EMPTY];
    forall s | 0 <= s < |hot| && s != removed && Tracked(hot[s])
      ensures s in h'
    {
      var q :| 0 <= q < |h| && h[q] == s;
      assert h'[if q == j' then gap else q] == s;
    }
    forall p | 0 <= p < |h'| && h'[p] != EMPTY
      ensures PathOk(hot, h', j', j', p)
    {
      ShiftMovePath(hot, h, removed, gap, j, p);
    }
  }

  lemma ShiftMovePath(hot: seq<Hot>, h: seq<int>, removed: int, gap: int, j: int, p: nat)
    requires Shifting(hot, h, removed, gap, j)
    requires h[Next(j, |h|)] != EMPTY
    requires ShouldShift(Natural(hot[h[Next(j, |h|)]].packetId, |h|), gap, Next(j, |h|))
    requires p < |h| && h[gap := h[Next(j, |h|)]][Next(j, |h|) := EMPTY][p] != EMPTY
    ensures PathOk(hot, h[gap := h[Next(j, |h|)]][Next(j, |h|) := EMPTY], Next(j, |h|), Next(j, |h|), p)
  {
    var j' := Next(j, |h|);
    var h' := h[gap := h[j']][j' := EMPTY];
    var from := if p == gap then j' else p; // where the entry came from
    assert PathOk(hot, h, gap, j, from);
    assert h'[p] == h[from];
  }

  lemma ShiftEnd(hot: seq<Hot>, h: seq<int>, removed: nat, gap: int, j: int, e: Hot)
    requires Shifting(hot, h, removed, gap, j)
    requires h[Next(j, |h|)] == EMPTY
    requires removed < |hot| && !Tracked(e)
    ensures Indexes(hot[removed := e], h)
  {
    var hot' := hot[removed := e];
    forall p | 0 <= p < |h| && h[p] != EMPTY
      ensures 0 <= h[p] < |hot'| && Tracked(hot'[h[p]]) && ClearUpTo(hot', h, p, -1)
    {
      assert PathOk(hot, h, gap, j, p);
      assert Cyc(Natural(hot[h[p]].packetId, |h|), gap, p)
             ==> Cyc(Natural(hot[h[p]].packetId, |h|), Next(j, |h|), p);
    }
  }

  /** One turn of the shift loop on the raw table, whose gap cell still holds a stale slot. */
  lemma ShiftTurn(hot: seq<Hot>, raw: seq<int>, removed: nat, gap: nat, j: nat, stop: nat, e: Hot)
    requires gap < |raw| && Shifting(hot, raw[gap := EMPTY], removed, gap, j)
    requires stop < |raw| && raw[stop] == EMPTY && stop != gap
    requires removed < |hot| && !Tracked(e)
    ensures j < |raw| && Next(j, |raw|) != gap
    ensures var k := Next(j, |raw|);
            if raw[k] == EMPTY then Indexes(hot[removed := e], raw[gap := EMPTY])
            else 0 <= raw[k] < |hot| && stop != k &&
                 if ShouldShift(Natural(hot[raw[k]].packetId, |raw|), gap, k)
                 then Shifting(hot, raw[gap := raw[k]][k := EMPTY], removed, k, k)
                 else Shifting(hot, raw[gap := EMPTY], removed, gap, k)
  {
    var h := raw[gap := EMPTY];
    var k := Next(j, |h|);
    assert k == gap ==> Cyc(gap, stop, j);
    if h[k] == EMPTY {
      ShiftEnd(hot, h, removed, gap, j, e);
    } else if ShouldShift(Natural(hot[h[k]].packetId, |h|), gap, k) {
      ShiftMove(hot, h, removed, gap, j);
      assert h[gap := h[k]][k := EMPTY] == raw[gap := raw[k]][k := EMPTY];
    } else {
      ShiftStay(hot, h, removed, gap, j);
    }
  }
}
