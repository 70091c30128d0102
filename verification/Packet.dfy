/** Fixed header and variable byte integers (src/mqtt/packet.h; sections 2.2 and 2.2.3 of MQTT Version 3.1.1). */
module Packet {
  import opened Common

  const MQTT_PUBLISH: byte := 3
  const MQTT_PUBACK: byte := 4
  const MQTT_PUBCOMP: byte := 7
  const VBI_MAX_BYTES := 4 // MQTT_VBI_MAX_BYTES
  const VBI_LIMIT := 0x1000_0000

  datatype Result<+T> = Ok(value: T) | Incomplete | Malformed
  datatype Header = Header(kind: byte, flags: byte, remaining: u32, size: nat)

  /** Seven bits a byte, least significant first, bit 7 set on all but the last. */
  function Vbi(x: nat): (s: seq<byte>)
    ensures |s| >= 1
  {
    if x < 0x80 then [x] else [0x80 + x % 0x80] + Vbi(x / 0x80)
  }

  function FixedHeader(kind: byte, flags: byte, remaining: nat): seq<byte>
    requires kind < 0x10 && flags < 0x10
  {
    [kind * 0x10 + flags] + Vbi(remaining)
  }

  /** The parser's loop from byte pos on, with value and multiplier so far. */
  function ParseVbi(buf: seq<byte>, pos: nat, value: nat, multiplier: nat): (r: Result<(nat, nat)>)
    ensures r.Ok? ==> pos < r.value.1 <= |buf|
    decreases VBI_MAX_BYTES + 1 - pos
  {
    if pos >= |buf| then Incomplete
    else if pos > VBI_MAX_BYTES then Malformed
    else
      var v := value + buf[pos] % 0x80 * multiplier;
      if buf[pos] < 0x80 then Ok((v, pos + 1)) else ParseVbi(buf, pos + 1, v, multiplier * 0x80)
  }

  /** mqtt_parse_fixed_header */
  function ParseFixedHeader(buf: seq<byte>): (r: Result<Header>)
    ensures r.Ok? ==> 2 <= r.value.size <= |buf|
  {
    if |buf| < 2 then Incomplete
    else
      match ParseVbi(buf, 1, 0, 1)
      case Incomplete => Incomplete
      case Malformed => Malformed
      case Ok((v, pos)) => VbiFits(buf, 1, 0, 1); Ok(Header(buf[0] / 0x10, buf[0] % 0x10, v, pos))
  }

  /** mqtt_packet_complete_ex: the total packet length, once all of it has arrived. */
  function PacketComplete(buf: seq<byte>): (r: Result<nat>)
    ensures r.Ok? ==> 2 <= r.value <= |buf|
  {
    match ParseFixedHeader(buf)
    case Incomplete => Incomplete
    case Malformed => Malformed
    case Ok(h) => if |buf| < h.size + h.remaining then Incomplete else Ok(h.size + h.remaining)
  }

  /** The remaining length the parser reports stays below 2^28, so it never wraps a u32. */
  lemma {:induction false} VbiFits(buf: seq<byte>, pos: nat, value: nat, multiplier: nat)
    requires 1 <= pos && value < multiplier <= VBI_LIMIT
    requires multiplier == Power7(pos - 1)
    ensures ParseVbi(buf, pos, value, multiplier).Ok? ==> ParseVbi(buf, pos, value, multiplier).value.0 < VBI_LIMIT
    decreases VBI_MAX_BYTES + 1 - pos
  {
    if pos < |buf| && pos <= VBI_MAX_BYTES {
      assert Power7(0) == 1 && Power7(1) == 0x80 && Power7(2) == 0x4000 && Power7(3) == 0x20_0000;
      var v := value + buf[pos] % 0x80 * multiplier;
      assert v < multiplier * 0x80;
      if buf[pos] >= 0x80 {
        VbiFits(buf, pos + 1, v, multiplier * 0x80);
      }
    }
  }

  function Power7(k: nat): nat {
    if k == 0 then 1 else 0x80 * Power7(k - 1)
  }

  /** mqtt_parse_fixed_header's loop over the receive buffer. */
  method ReadFixedHeader(buf: seq<byte>) returns (r: Result<Header>)
    ensures r == ParseFixedHeader(buf)
  {
    if |buf| < 2 {
      return Incomplete;
    }
    var value: nat, multiplier: nat, pos: nat := 0, 1, 1;
    VbiFits(buf, 1, 0, 1);
    while true
      invariant 1 <= pos <= VBI_MAX_BYTES + 1
      invariant ParseVbi(buf, 1, 0, 1) == ParseVbi(buf, pos, value, multiplier)
      decreases VBI_MAX_BYTES + 1 - pos
    {
      if pos >= |buf| {
        return Incomplete;
      }
      if pos > VBI_MAX_BYTES {
        return Malformed;
      }
      var b := buf[pos];
      pos := pos + 1;
      value := value + b % 0x80 * multiplier;
      multiplier := multiplier * 0x80;
      if b < 0x80 {
        break;
      }
    }
    return Ok(Header(buf[0] / 0x10, buf[0] % 0x10, value, pos));
  }

  /** mqtt_encode_remaining_len: writes at buf[at..] and returns the number of bytes. */
  method WriteRemainingLen(buf: array<byte>, at: nat, len: u32) returns (n: nat)
    requires at + |Vbi(len)| <= buf.Length
    modifies buf
    ensures n == |Vbi(len)| && buf[..at + n] == old(buf[..at]) + Vbi(len)
    ensures forall i :: at + n <= i < buf.Length ==> buf[i] == old(buf[i])
  {
    n := 0;
    var x: nat := len;
    var more := true;
    while more
      invariant at + n + (if more then |Vbi(x)| else 0) == at + |Vbi(len)|
      invariant buf[..at + n] + (if more then Vbi(x) else []) == old(buf[..at]) + Vbi(len)
      invariant forall i :: at + n <= i < buf.Length ==> buf[i] == old(buf[i])
      decreases more, x
    {
      var b := x % 0x80;
      x := x / 0x80;
      more := x > 0;
      buf[at + n] := if more then 0x80 + b else b;
      n := n + 1;
      assert buf[..at + n] == buf[..at + n - 1] + [buf[at + n - 1]];
    }
  }

  /** mqtt_encode_fixed_header */
  method WriteFixedHeader(buf: array<byte>, kind: byte, flags: byte, remaining: u32) returns (n: nat)
    requires kind < 0x10 && flags < 0x10
    requires |FixedHeader(kind, flags, remaining)| <= buf.Length
    modifies buf
    ensures n == |FixedHeader(kind, flags, remaining)| && buf[..n] == FixedHeader(kind, flags, remaining)
    ensures forall i :: n <= i < buf.Length ==> buf[i] == old(buf[i])
  {
    buf[0] := kind * 0x10 + flags;
    assert buf[..1] == [kind * 0x10 + flags];
    n := WriteRemainingLen(buf, 1, remaining);
    n := n + 1;
  }

  // ---- round trip ----

  lemma {:induction false} VbiRoundTripFrom(buf: seq<byte>, pos: nat, x: nat, value: nat, multiplier: nat)
    requires 1 <= pos && pos - 1 + |Vbi(x)| <= VBI_MAX_BYTES
    requires pos + |Vbi(x)| <= |buf| && buf[pos..pos + |Vbi(x)|] == Vbi(x)
    ensures ParseVbi(buf, pos, value, multiplier) == Ok((value + x * multiplier, pos + |Vbi(x)|))
    decreases x
  {
    assert buf[pos] == Vbi(x)[0];
    if x >= 0x80 {
      assert buf[pos + 1..pos + |Vbi(x)|] == Vbi(x)[1..] == Vbi(x / 0x80);
      var value', multiplier' := value + x % 0x80 * multiplier, multiplier * 0x80;
      assert buf[pos] % 0x80 == x % 0x80;
      assert ParseVbi(buf, pos, value, multiplier) == ParseVbi(buf, pos + 1, value', multiplier');
      VbiRoundTripFrom(buf, pos + 1, x / 0x80, value', multiplier');
      ShiftedValue(x, multiplier);
    }
  }

  lemma ShiftedValue(x: nat, multiplier: nat)
    ensures x * multiplier == x % 0x80 * multiplier + x / 0x80 * (multiplier * 0x80)
  {
    var q, r := x / 0x80, x % 0x80;
    assert x * multiplier == (q * 0x80 + r) * multiplier == q * 0x80 * multiplier + r * multiplier;
    assert q * 0x80 * multiplier == q * (multiplier * 0x80);
  }

  /** The thresholds of section 2.2.3. */
  lemma VbiSize(x: nat)
    ensures |Vbi(x)| == 1 <==> x < 0x80
    ensures |Vbi(x)| == 2 <==> 0x80 <= x < 0x4000
    ensures |Vbi(x)| == 3 <==> 0x4000 <= x < 0x20_0000
    ensures |Vbi(x)| <= 4 <==> x < VBI_LIMIT
  {
    VbiSizeStep(x);
    VbiSizeStep(x / 0x80);
    VbiSizeStep(x / 0x80 / 0x80);
    VbiSizeStep(x / 0x80 / 0x80 / 0x80);
  }

  lemma VbiSizeStep(x: nat)
    ensures |Vbi(x)| == if x < 0x80 then 1 else 1 + |Vbi(x / 0x80)|
  {
  }

  /** Every header below 2^28 is read back as written, whatever bytes follow. */
  lemma HeaderRoundTrip(kind: byte, flags: byte, remaining: nat, rest: seq<byte>)
    requires kind < 0x10 && flags < 0x10 && remaining < VBI_LIMIT
    ensures ParseFixedHeader(FixedHeader(kind, flags, remaining) + rest)
         == Ok(Header(kind, flags, remaining, |FixedHeader(kind, flags, remaining)|))
    ensures |FixedHeader(kind, flags, remaining)| <= 5
  {
    var first := kind * 0x10 + flags;
    VbiSize(remaining);
    var buf := FixedHeader(kind, flags, remaining) + rest;
    assert buf[1..1 + |Vbi(remaining)|] == Vbi(remaining);
    VbiRoundTripFrom(buf, 1, remaining, 0, 1);
    assert buf[0] == first;
  }

  /** What the parser decides on some bytes it also decides once more bytes have arrived. */
  lemma {:induction false} VbiStable(buf: seq<byte>, more: seq<byte>, pos: nat, value: nat, multiplier: nat)
    requires ParseVbi(buf, pos, value, multiplier) != Incomplete
    ensures ParseVbi(buf + more, pos, value, multiplier) == ParseVbi(buf, pos, value, multiplier)
    decreases VBI_MAX_BYTES + 1 - pos
  {
    if pos <= VBI_MAX_BYTES && buf[pos] >= 0x80 {
      VbiStable(buf, more, pos + 1, value + buf[pos] % 0x80 * multiplier, multiplier * 0x80);
    }
  }

  lemma CompleteStable(buf: seq<byte>, more: seq<byte>)
    requires PacketComplete(buf) != Incomplete
    ensures PacketComplete(buf + more) == PacketComplete(buf)
  {
    VbiStable(buf, more, 1, 0, 1);
  }
}
