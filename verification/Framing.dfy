/** Framing of the byte stream of one client (process_recv_buffer, maybe_compact_recv_buf and
    submit_recv_internal in src/broker/loop.h; steal_recv_buffer in src/broker/handler.h). */
module Framing {
  import opened Common
  import opened Packet

  // ---- the reference: parsing the whole stream at once ----

  function Parse(s: seq<byte>): (ps: seq<seq<byte>>)
    decreases |s|
  {
    match PacketComplete(s)
    case Ok(n) => [s[..n]] + Parse(s[n..])
    case _ => []
  }

  /** A longer stream parses to the same packets first. */
  lemma {:induction false} ParseMonotonic(s: seq<byte>, more: seq<byte>)
    ensures Parse(s) <= Parse(s + more)
    decreases |s|
  {
    if PacketComplete(s).Ok? {
      var n := PacketComplete(s).value;
      CompleteStable(s, more);
      assert (s + more)[..n] == s[..n] && (s + more)[n..] == s[n..] + more;
      ParseMonotonic(s[n..], more);
    }
  }

  /** Packets already split off, followed by the parse of what is left, are the parse of the whole. */
  lemma {:induction false} ParseSplit(ps: seq<seq<byte>>, rest: seq<byte>)
    requires forall k :: 0 <= k < |ps| ==> PacketComplete(ps[k]) == Ok(|ps[k]|)
    ensures Parse(Flatten(ps) + rest) == ps + Parse(rest)
  {
    hide PacketComplete;
    if ps == [] {
      assert [] + rest == rest;
    } else {
      var tail := Flatten(ps[1..]) + rest;
      assert Flatten(ps) + rest == ps[0] + tail;
      ParseCons(ps[0], tail);
      ParseSplit(ps[1..], rest);
      assert [ps[0]] + (ps[1..] + Parse(rest)) == ps + Parse(rest);
    }
  }

  lemma ParseCons(packet: seq<byte>, tail: seq<byte>)
    requires PacketComplete(packet) == Ok(|packet|)
    ensures Parse(packet + tail) == [packet] + Parse(tail)
  {
    hide PacketComplete;
    CompleteStable(packet, tail);
    assert (packet + tail)[..|packet|] == packet && (packet + tail)[|packet|..] == tail;
  }

  /** The first packet of a stream, taken alone, is complete. */
  lemma FirstPacketAlone(s: seq<byte>)
    requires PacketComplete(s).Ok?
    ensures PacketComplete(s).value <= |s| && PacketComplete(s[..PacketComplete(s).value]) == PacketComplete(s)
  {
    var n := PacketComplete(s).value;
    var h := ParseFixedHeader(s).value;
    VbiPrefix(s, n, 1, 0, 1);
  }

  /** Splitting the first packet off the unread bytes loses and adds nothing. */
  lemma ConsumeFirst(ps: seq<seq<byte>>, w: seq<byte>)
    requires PacketComplete(w).Ok?
    ensures var n := PacketComplete(w).value;
            && n <= |w| && PacketComplete(w[..n]) == Ok(n)
            && Flatten(ps + [w[..n]]) + w[n..] == Flatten(ps) + w
  {
    hide PacketComplete;
    FirstPacketAlone(w);
    var n := PacketComplete(w).value;
    FlattenAppend(ps, [w[..n]]);
    assert Flatten([w[..n]]) == w[..n] + Flatten([]);
    assert (Flatten(ps) + w[..n]) + w[n..] == Flatten(ps) + (w[..n] + w[n..]);
    assert w[..n] + w[n..] == w;
  }

  lemma {:induction false} VbiPrefix(s: seq<byte>, n: nat, pos: nat, value: nat, multiplier: nat)
    requires n <= |s| && ParseVbi(s, pos, value, multiplier).Ok? && ParseVbi(s, pos, value, multiplier).value.1 <= n
    ensures ParseVbi(s[..n], pos, value, multiplier) == ParseVbi(s, pos, value, multiplier)
    decreases VBI_MAX_BYTES + 1 - pos
  {
    if s[pos] >= 0x80 {
      VbiPrefix(s, n, pos + 1, value + s[pos] % 0x80 * multiplier, multiplier * 0x80);
    }
  }

  lemma NextPacket(ps: seq<seq<byte>>, w: seq<byte>)
    requires PacketComplete(w).Ok?
    ensures var n := PacketComplete(w).value;
            n <= |w| && ps + Parse(w) == (ps + [w[..n]]) + Parse(w[n..])
  {
  }

  lemma SomeBytes(w: seq<byte>)
    requires PacketComplete(w).Ok?
    ensures 2 <= PacketComplete(w).value <= |w|
  {
  }

  lemma NothingLeft(w: seq<byte>)
    ensures w == [] ==> PacketComplete(w) == Incomplete
    ensures PacketComplete(w) == Incomplete ==> forall ps: seq<seq<byte>> :: ps + Parse(w) == ps
  {
  }

  /** The short cut for acknowledgements frames them as the full parser does. */
  predicate FastPath(connected: bool, data: seq<byte>) {
    connected && |data| >= 4 && data[1] == 2 && MQTT_PUBACK <= data[0] / 0x10 <= MQTT_PUBCOMP
  }

  /** It is taken exactly for a complete packet of one of the types 4 to 7 with two bytes behind a two-byte header. */
  lemma FastPathFrames(connected: bool, data: seq<byte>)
    ensures FastPath(connected, data) ==> PacketComplete(data) == Ok(4)
    ensures FastPath(connected, data) <==>
              connected && PacketComplete(data) == Ok(4) && ParseFixedHeader(data).value.size == 2 && 4 <= ParseFixedHeader(data).value.kind <= 7
  {
    VbiFits(data, 1, 0, 1);
    if |data| >= 4 {
      assert data[1] < 0x80 ==> ParseVbi(data, 1, 0, 1) == Ok((data[1], 2));
    }
  }

  /** A full window without a complete packet is the beginning of a packet longer than the buffer. */
  lemma FullWindowIsOversized(w: seq<byte>)
    requires |w| > 5 && PacketComplete(w) == Incomplete
    ensures ParseFixedHeader(w).Ok? && ParseFixedHeader(w).value.size + ParseFixedHeader(w).value.remaining > |w|
  {
    VbiDecided(w, 1, 0, 1);
  }

  lemma {:induction false} VbiDecided(w: seq<byte>, pos: nat, value: nat, multiplier: nat)
    requires |w| > VBI_MAX_BYTES + 1 && pos <= VBI_MAX_BYTES + 1
    ensures ParseVbi(w, pos, value, multiplier) != Incomplete
    decreases VBI_MAX_BYTES + 1 - pos
  {
    if pos <= VBI_MAX_BYTES && w[pos] >= 0x80 {
      VbiDecided(w, pos + 1, value + w[pos] % 0x80 * multiplier, multiplier * 0x80);
    }
  }
}
