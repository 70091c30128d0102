/** The receive window of one client, in place: a buffer, the offset of the first unread byte and the number
    of unread bytes (src/broker/loop.h, src/broker/handler.h). */
module RecvWindow {
  import opened Common
  import opened Packet
  import opened Framing

  const MQTT_CONNECT: byte := 1

  /** What the packet handler does with a complete packet; the pools decide whether a PUBLISH takes the buffer. */
  datatype Verdict = Accept | TakeBuffer | Reject

  datatype Turned = More | Starved | Closing

  /** The first packet of w ends the connection: it is malformed, or it is complete and the handler rejects it. The handler never
      sees what takes the short cut. */
  predicate Refused(w: seq<byte>, verdict: Verdict, connected: bool) {
    PacketComplete(w) == Malformed || (PacketComplete(w).Ok? && !FastPath(connected, w) && verdict == Reject)
  }

  class Window {
    const size: nat
    var buf: array<byte>
    var start: nat
    var len: nat
    var connected: bool
    var spare: seq<array<byte>> // free receive buffers, top last
    ghost var received: seq<byte>
    ghost var consumed: seq<seq<byte>>

    ghost function Repr(): set<object>
      reads this
    {
      {this, buf} + set a | a in spare
    }

    ghost function Unread(): seq<byte>
      reads this, buf
      requires start + len <= buf.Length
    {
      buf[start..start + len]
    }

    /** Consumed packets followed by the unread bytes are all bytes received, in order. */
    ghost predicate Valid()
      reads this, buf
    {
      && size > 5
      && buf.Length == size
      && start + len <= size
      && Distinct(spare) && buf !in spare
      && (forall k :: 0 <= k < |spare| ==> spare[k].Length == size)
      && (forall k :: 0 <= k < |consumed| ==> PacketComplete(consumed[k]) == Ok(|consumed[k]|))
      && Flatten(consumed) + Unread() == received
    }

    constructor (b: array<byte>, others: seq<array<byte>>)
      requires b.Length > 5 && Distinct(others) && b !in others
      requires forall k :: 0 <= k < |others| ==> others[k].Length == b.Length
      ensures Valid() && buf == b && spare == others && size == b.Length
      ensures received == [] && consumed == [] && start == len == 0
    {
      size, buf, spare := b.Length, b, others;
      start, len, connected := 0, 0, false;
      received, consumed := [], [];
    }

    /** maybe_compact_recv_buf */
    method MaybeCompact() returns (moved: bool)
      requires Valid()
      modifies this`start, buf
      ensures Valid() && Unread() == old(Unread())
      ensures start + len < size <==> len < size
      ensures moved <==> len > 0 && (old(start) > size / 2 || size - old(start) - len < size / 4)
      ensures start == if moved || len == 0 then 0 else old(start)
    {
      if len == 0 {
        start := 0;
        return false;
      }
      var space := buf.Length - start - len;
      if start > buf.Length / 2 || space < buf.Length / 4 {
        MoveDown(buf, start, len);
        start := 0;
        return true;
      }
      return false;
    }

    /** submit_recv_internal: room for the next receive, or none, which closes the connection. It has none
        exactly when one incomplete packet longer than the buffer fills the whole buffer. */
    method PrepareRecv() returns (space: nat)
      requires Valid() && PacketComplete(Unread()) == Incomplete
      modifies this`start, buf
      ensures Valid() && Unread() == old(Unread()) && start + len + space == size
      ensures space == 0 <==> len == size
      ensures space == 0 ==> var h := ParseFixedHeader(Unread()); h.Ok? && h.value.size + h.value.remaining > size
    {
      var moved := MaybeCompact();
      space := buf.Length - start - len;
      if space == 0 {
        FullWindowIsOversized(Unread());
      }
    }

    /** The kernel writes behind the unread bytes, and handle_recv counts them. */
    method Deliver(data: seq<byte>)
      requires Valid() && start + len + |data| <= size
      modifies this`len, this`received, buf
      ensures Valid() && received == old(received) + data
      ensures Unread() == old(Unread()) + data
    {
      hide PacketComplete, Flatten;
      var end := start + len;
      ghost var before, unread := buf[..end], Unread();
      WriteAt(buf, end, data);
      TailOf(before, data, start);
      assert buf[start..end + |data|] == buf[..end + |data|][start..];
      assert unread == before[start..];
      len := len + |data|;
      received := received + data;
      Regrouped(consumed, unread, data, received[..|received| - |data|]);
    }

    /** Advancing past a complete packet. */
    method Advance(n: nat)
      requires Valid() && PacketComplete(Unread()) == Ok(n)
      modifies this`start, this`len, this`consumed
      ensures Valid() && consumed == old(consumed + [Unread()[..n]]) && Unread() == old(Unread()[n..])
    {
      hide PacketComplete;
      ghost var w := Unread();
      ConsumeFirst(consumed, w);
      consumed := consumed + [w[..n]];
      start := start + n;
      len := len - n;
      assert Unread() == w[n..];
    }

    /** steal_recv_buffer: the packet's bytes stay where they are in the old buffer, which the message keeps;
        the unread rest continues at the front of a fresh one. */
    method Steal(n: nat) returns (stolen: array<byte>, ok: bool)
      requires Valid() && PacketComplete(Unread()) == Ok(n)
      modifies Repr()
      ensures Valid() && received == old(received) && connected == old(connected) && Repr() <= old(Repr())
      ensures stolen == old(buf) && stolen[..] == old(buf[..])
      ensures ok <==> old(spare) != []
      ensures !ok ==> buf == old(buf) && start == old(start) && len == old(len) && spare == old(spare) && consumed == old(consumed)
      ensures ok ==> stolen !in Repr() && consumed == old(consumed + [Unread()[..n]]) && Unread() == old(Unread()[n..])
    {
      hide PacketComplete;
      stolen := buf;
      if spare == [] {
        return stolen, false;
      }
      var next := spare[|spare| - 1];
      ghost var w := Unread();
      var remaining := if len > n then len - n else 0;
      CopyDown(stolen, start + n, remaining, next);
      spare := spare[..|spare| - 1];
      ConsumeFirst(consumed, w);
      consumed := consumed + [w[..n]];
      buf, start, len := next, 0, remaining;
      ok := true;
      assert Unread() == w[n..];
    }

    /** One turn of the loop in process_recv_buffer. */
    method Turn(verdict: Verdict) returns (t: Turned)
      requires Valid() && len > 0
      modifies Repr()
      ensures Valid() && received == old(received) && Repr() <= old(Repr())
      ensures consumed + Parse(Unread()) == old(consumed + Parse(Unread()))
      ensures t == More ==> len < old(len)
      ensures t == Starved <==> PacketComplete(old(Unread())) == Incomplete
      ensures t == Closing <==> Refused(old(Unread()), verdict, old(connected))
      ensures t != More ==> consumed == old(consumed) && Unread() == old(Unread()) && connected == old(connected)
      ensures t == More ==>
                var n := PacketComplete(old(Unread())).value; var first := old(Unread())[..n];
                && consumed == old(consumed) + [first] && Unread() == old(Unread())[n..]
                && connected == (old(connected) || old(Unread())[0] / 0x10 == 1)
    {
      hide PacketComplete;
      var data := buf[start..start + len];
      if FastPath(connected, data) {
        FastPathFrames(connected, data);
        NextPacket(consumed, data);
        Advance(4);
        return More;
      }
      var complete := PacketComplete(data);
      if complete == Incomplete {
        return Starved;
      }
      if complete == Malformed || verdict == Reject {
        return Closing;
      }
      SomeBytes(data);
      NextPacket(consumed, data);
      if data[0] / 0x10 == MQTT_CONNECT {
        connected := true;
      }
      if verdict == TakeBuffer {
        var stolen, ok := Steal(complete.value);
        if ok {
          return More;
        }
      }
      Advance(complete.value);
      return More;
    }

    /** process_recv_buffer. Whatever the handler decides, the packets consumed are a prefix of the parse of
        everything received; while the connection lives they are that parse, however the bytes were cut. */
    method Process(decide: nat -> Verdict) returns (alive: bool)
      requires Valid() && consumed + Parse(Unread()) == Parse(received)
      modifies Repr()
      ensures Valid() && received == old(received) && Repr() <= old(Repr())
      ensures consumed + Parse(Unread()) == Parse(received)
      ensures alive ==> consumed == Parse(received) && PacketComplete(Unread()) == Incomplete
      ensures |consumed| >= old(|consumed|)
      ensures !alive ==> Refused(Unread(), decide(|consumed| - old(|consumed|)), connected)
    {
      hide PacketComplete, ParseFixedHeader;
      var count := 0;
      while len > 0
        invariant Valid() && received == old(received) && Repr() <= old(Repr())
        invariant |consumed| == old(|consumed|) + count
        invariant consumed + Parse(Unread()) == Parse(received)
        decreases len
      {
        var t := Turn(decide(count));
        if t == Starved {
          break;
        }
        if t == Closing {
          return false;
        }
        count := count + 1;
      }
      NothingLeft(Unread());
      return true;
    }
  }

  /** One receive completion: the new bytes, then every packet they complete. */
  method Receive(w: Window, data: seq<byte>, decide: nat -> Verdict) returns (alive: bool)
    requires w.Valid() && w.start + w.len + |data| <= w.size
    modifies w.Repr()
    ensures w.Valid() && w.received == old(w.received) + data && w.Repr() <= old(w.Repr())
    ensures w.consumed + Parse(w.Unread()) == Parse(w.received)
    ensures alive ==> w.consumed == Parse(w.received) && PacketComplete(w.Unread()) == Incomplete
    ensures |w.consumed| >= old(|w.consumed|)
    ensures !alive ==> Refused(w.Unread(), decide(|w.consumed| - old(|w.consumed|)), w.connected)
  {
    ghost var rest := w.Unread();
    ParseSplit(w.consumed, rest + data);
    Regrouped(w.consumed, rest, data, w.received);
    w.Deliver(data);
    alive := w.Process(decide);
  }

  /** Why a connection ends: no room for the rest of a packet, or a refused one. */
  ghost predicate Ended(unread: seq<byte>, size: nat, connected: bool, decide: nat -> Verdict) {
    (PacketComplete(unread) == Incomplete && |unread| == size) || exists k: nat :: Refused(unread, decide(k), connected)
  }

  /** A whole connection: the stream arrives in whatever cuts the kernel chooses. What has been consumed depends
      only on the bytes, never on the cuts; the window closes early only for the handler, a malformed packet,
      or one packet longer than the buffer. */
  method Feed(w: Window, stream: seq<byte>, cut: nat -> nat, decide: nat -> nat -> Verdict) returns (alive: bool)
    requires w.Valid() && w.received == [] && w.consumed == []
    modifies w.Repr()
    ensures w.Valid() && w.received <= stream
    ensures w.consumed <= Parse(stream)
    ensures alive ==> w.received == stream && w.consumed == Parse(stream)
    ensures !alive ==>
              || (PacketComplete(w.Unread()) == Incomplete && |w.Unread()| == w.size)
              || PacketComplete(w.Unread()) == Malformed
              || (PacketComplete(w.Unread()).Ok? && !FastPath(w.connected, w.Unread()) && exists r: nat, k: nat :: decide(r)(k) == Reject)
  {
    hide PacketComplete, ParseFixedHeader;
    EmptyStream(w);
    var at, round := 0, 0;
    alive := true;
    while alive && at < |stream|
      invariant 0 <= at <= |stream| && w.Valid() && w.Repr() <= old(w.Repr())
      invariant w.received == stream[..at] && w.consumed + Parse(w.Unread()) == Parse(w.received)
      invariant alive ==> w.consumed == Parse(w.received) && PacketComplete(w.Unread()) == Incomplete
      invariant !alive ==> round > 0 && Ended(w.Unread(), w.size, w.connected, decide(round - 1))
      decreases alive, |stream| - at
    {
      alive, at := FeedOnce(w, stream, at, cut(round), decide(round));
      round := round + 1;
    }
    ParseMonotonic(w.received, stream[at..]);
    assert w.received + stream[at..] == stream;
  }

  /** One receive of the kernel's choosing, at most what is left of the stream. */
  method FeedOnce(w: Window, stream: seq<byte>, at: nat, want: nat, decide: nat -> Verdict) returns (alive: bool, next: nat)
    requires w.Valid() && at < |stream| && w.received == stream[..at]
    requires w.consumed == Parse(w.received) && PacketComplete(w.Unread()) == Incomplete && w.consumed + Parse(w.Unread()) == Parse(w.received)
    modifies w.Repr()
    ensures w.Valid() && w.Repr() <= old(w.Repr())
    ensures at <= next <= |stream| && (alive ==> at < next) && w.received == stream[..next]
    ensures w.consumed + Parse(w.Unread()) == Parse(w.received)
    ensures alive ==> w.consumed == Parse(w.received) && PacketComplete(w.Unread()) == Incomplete
    ensures !alive ==> Ended(w.Unread(), w.size, w.connected, decide)
  {
    hide PacketComplete, ParseFixedHeader, Parse;
    var space := w.PrepareRecv();
    if space == 0 {
      return false, at;
    }
    var n := if 0 < want <= space then want else space;
    n := if n <= |stream| - at then n else |stream| - at;
    alive := Receive(w, stream[at..at + n], decide);
    next := at + n;
    assert stream[..at] + stream[at..next] == stream[..next];
  }

  lemma EmptyStream(w: Window)
    requires w.Valid() && w.received == [] && w.consumed == []
    ensures w.Unread() == [] && PacketComplete(w.Unread()) == Incomplete && Parse([]) == []
  {
  }

  lemma Regrouped(ps: seq<seq<byte>>, rest: seq<byte>, data: seq<byte>, received: seq<byte>)
    requires Flatten(ps) + rest == received
    ensures Flatten(ps) + (rest + data) == received + data
  {
  }

  /** The kernel's write. */
  method WriteAt(buf: array<byte>, at: nat, data: seq<byte>)
    requires at + |data| <= buf.Length
    modifies buf
    ensures buf[..at + |data|] == old(buf[..at]) + data
  {
    var i := 0;
    while i < |data|
      invariant 0 <= i <= |data|
      invariant buf[..at + i] == old(buf[..at]) + data[..i]
    {
      buf[at + i] := data[i];
      i := i + 1;
      assert buf[..at + i] == buf[..at + i - 1] + [data[i - 1]];
      assert data[..i] == data[..i - 1] + [data[i - 1]];
    }
  }

  lemma TailOf(a: seq<byte>, b: seq<byte>, from: nat)
    requires from <= |a|
    ensures (a + b)[from..] == a[from..] + b
  {
  }

  /** memmove to the front of the same buffer. */
  method MoveDown(buf: array<byte>, from: nat, n: nat)
    requires from + n <= buf.Length
    modifies buf
    ensures buf[..n] == old(buf[from..from + n])
  {
    var i := 0;
    while i < n
      invariant i <= n
      invariant buf[..i] == old(buf[from..from + i])
      invariant forall k :: i <= k < buf.Length ==> buf[k] == old(buf[k])
    {
      buf[i] := buf[from + i];
      i := i + 1;
      assert buf[..i] == buf[..i - 1] + [buf[i - 1]];
    }
  }

  /** memcpy to the front of another buffer. */
  method CopyDown(src: array<byte>, from: nat, n: nat, dst: array<byte>)
    requires from + n <= src.Length && n <= dst.Length && src != dst
    modifies dst
    ensures dst[..n] == src[from..from + n]
  {
    var i := 0;
    while i < n
      invariant i <= n
      invariant dst[..i] == src[from..from + i]
    {
      dst[i] := src[from + i];
      i := i + 1;
      assert dst[..i] == dst[..i - 1] + [dst[i - 1]];
    }
  }
}
