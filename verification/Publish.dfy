/** PUBLISH parsing and encoding (src/mqtt/publish.h; section 3.3 of MQTT Version 3.1.1). */
module Publish {
  import opened Common
  import opened Packet

  datatype Message = Message(retain: bool, qos: byte, dup: bool, topic: seq<byte>, packetId: u16, payload: seq<byte>)

  function Bytes16(x: u16): (s: seq<byte>)
    ensures |s| == 2
  {
    [x / 0x100, x % 0x100]
  }

  function Read16(hi: byte, lo: byte): u16 { hi * 0x100 + lo }

  function FlagsOf(retain: bool, qos: byte, dup: bool): (f: byte)
    ensures f < 0x10
  {
    (if retain then 1 else 0) + qos % 4 * 2 + (if dup then 8 else 0)
  }

  /** Variable header and payload. */
  function Body(m: Message): (s: seq<byte>)
    requires |m.topic| < 0x1_0000
    ensures |s| == Remaining(|m.topic|, |m.payload|, m.qos)
  {
    Bytes16(|m.topic|) + m.topic + (if m.qos > 0 then Bytes16(m.packetId) else []) + m.payload
  }

  function Remaining(topicLen: nat, payloadLen: nat, qos: byte): nat {
    2 + topicLen + payloadLen + (if qos > 0 then 2 else 0)
  }

  /** The packet on the wire. */
  function Encoded(m: Message): seq<byte>
    requires |m.topic| < 0x1_0000
  {
    FixedHeader(MQTT_PUBLISH, FlagsOf(m.retain, m.qos, m.dup), |Body(m)|) + Body(m)
  }

  /** What the parser accepts. */
  predicate Valid(m: Message) {
    && m.qos <= 2
    && (m.qos == 0 ==> !m.dup && m.packetId == 0)
    && 0 < |m.topic| < 0x1_0000
    && (m.qos > 0 ==> m.packetId != 0)
  }

  /** mqtt_parse_string: the string and the bytes consumed. */
  function ParseString(buf: seq<byte>): (r: Result<(seq<byte>, nat)>)
    ensures r.Ok? ==> r.value.1 <= |buf| && |r.value.0| < 0x1_0000
  {
    if |buf| < 2 then Incomplete
    else
      var n := Read16(buf[0], buf[1]);
      if |buf| < 2 + n then Incomplete else Ok((buf[2..2 + n], 2 + n))
  }

  /** mqtt_parse_publish */
  function ParsePublish(flags: byte, buf: seq<byte>): Result<Message> {
    var retain, qos, dup := flags % 2 != 0, flags / 2 % 4, flags / 8 % 2 != 0;
    if qos > 2 then Malformed
    else if qos == 0 && dup then Malformed
    else
      match ParseString(buf)
      case Incomplete => Incomplete
      case Malformed => Malformed
      case Ok((topic, pos)) =>
        if topic == [] then Malformed
        else if qos == 0 then Ok(Message(retain, qos, dup, topic, 0, buf[pos..]))
        else if |buf| < pos + 2 then Incomplete
        else if Read16(buf[pos], buf[pos + 1]) == 0 then Malformed
        else Ok(Message(retain, qos, dup, topic, Read16(buf[pos], buf[pos + 1]), buf[pos + 2..]))
  }

  /** mqtt_parse_publish, advancing over the body: also where topic and payload begin. */
  method ReadPublish(flags: byte, buf: seq<byte>) returns (r: Result<Message>, topicAt: nat, payloadAt: nat)
    ensures r == ParsePublish(flags, buf)
    ensures r.Ok? ==> topicAt + |r.value.topic| <= |buf| && payloadAt + |r.value.payload| == |buf|
    ensures r.Ok? ==> buf[topicAt..topicAt + |r.value.topic|] == r.value.topic && buf[payloadAt..] == r.value.payload
    ensures r.Ok? ==> topicAt == 2 && payloadAt == 2 + |r.value.topic| + (if r.value.qos > 0 then 2 else 0)
  {
    topicAt, payloadAt := 2, 0;
    var retain, qos, dup := flags % 2 != 0, flags / 2 % 4, flags / 8 % 2 != 0;
    if qos > 2 || (qos == 0 && dup) {
      return Malformed, 0, 0;
    }
    if |buf| < 2 {
      return Incomplete, 0, 0;
    }
    var pos: nat := 2 + Read16(buf[0], buf[1]);
    if |buf| < pos {
      return Incomplete, 0, 0;
    }
    var topic := buf[2..pos];
    if topic == [] {
      return Malformed, 0, 0;
    }
    var packetId := 0;
    if qos > 0 {
      if |buf| < pos + 2 {
        return Incomplete, 0, 0;
      }
      packetId := Read16(buf[pos], buf[pos + 1]);
      pos := pos + 2;
      if packetId == 0 {
        return Malformed, 0, 0;
      }
    }
    return Ok(Message(retain, qos, dup, topic, packetId, buf[pos..])), 2, pos;
  }

  /** mqtt_publish_size */
  function PublishSize(topicLen: nat, payloadLen: nat, qos: byte): nat {
    var remaining := Remaining(topicLen, payloadLen, qos);
    1 + (if remaining > 2097151 then 4 else if remaining > 16383 then 3 else if remaining > 127 then 2 else 1) + remaining
  }

  /** Writes s behind the bytes done so far; rest is what followed them. */
  method Append(buf: array<byte>, at: nat, s: seq<byte>, ghost done: seq<byte>) returns (pos: nat)
    requires at == |done| && at + |s| <= buf.Length && buf[..at] == done
    modifies buf
    ensures pos == at + |s| && buf[..pos] == done + s
    ensures forall i :: pos <= i < buf.Length ==> buf[i] == old(buf[i])
  {
    pos := at;
    while pos < at + |s|
      invariant at <= pos <= at + |s|
      invariant buf[..pos] == done + s[..pos - at]
      invariant forall i :: pos <= i < buf.Length ==> buf[i] == old(buf[i])
    {
      buf[pos] := s[pos - at];
      pos := pos + 1;
      assert buf[..pos] == buf[..pos - 1] + [s[pos - 1 - at]];
    }
  }

  /** The part of mqtt_encode_publish behind the fixed header. */
  method WriteBody(buf: array<byte>, at: nat, m: Message, ghost head: seq<byte>) returns (pos: nat)
    requires |m.topic| < 0x1_0000
    requires at == |head| && at + |Body(m)| <= buf.Length && buf[..at] == head
    modifies buf
    ensures pos == at + |Body(m)| && buf[..pos] == head + Body(m)
    ensures forall i :: pos <= i < buf.Length ==> buf[i] == old(buf[i])
  {
    ghost var done := head + Bytes16(|m.topic|);
    pos := Append(buf, at, Bytes16(|m.topic|), head);
    pos := Append(buf, pos, m.topic, done);
    done := done + m.topic;
    if m.qos > 0 {
      pos := Append(buf, pos, Bytes16(m.packetId), done);
      done := done + Bytes16(m.packetId);
    }
    pos := Append(buf, pos, m.payload, done);
    assert done + m.payload == head + Body(m);
  }

  /** mqtt_encode_publish: a non-zero override replaces the packet id. */
  method WritePublish(buf: array<byte>, m: Message, packetIdOverride: u16) returns (pos: nat)
    requires |m.topic| < 0x1_0000 && |Body(m)| < 0x1_0000_0000
    requires |Encoded(m)| <= buf.Length
    modifies buf
    ensures var sent := m.(packetId := if packetIdOverride != 0 then packetIdOverride else m.packetId);
            pos == |Encoded(sent)| && buf[..pos] == Encoded(sent)
    ensures forall i :: pos <= i < buf.Length ==> buf[i] == old(buf[i])
  {
    var remaining := 2 + |m.topic| + |m.payload|;
    if m.qos > 0 {
      remaining := remaining + 2;
    }
    var sent := m.(packetId := if packetIdOverride != 0 then packetIdOverride else m.packetId);
    pos := WriteFixedHeader(buf, MQTT_PUBLISH, FlagsOf(m.retain, m.qos, m.dup), remaining);
    pos := WriteBody(buf, pos, sent, FixedHeader(MQTT_PUBLISH, FlagsOf(m.retain, m.qos, m.dup), remaining));
  }

  // ---- round trip and lengths ----

  lemma StringRoundTrip(s: seq<byte>, rest: seq<byte>)
    requires |s| < 0x1_0000
    ensures ParseString(Bytes16(|s|) + s + rest) == Ok((s, 2 + |s|))
  {
    var buf := Bytes16(|s|) + s + rest;
    assert Read16(buf[0], buf[1]) == |s|;
    assert buf[2..2 + |s|] == s;
  }

  /** Fields written by the encoder are read back, and the parser accepts nothing else. */
  lemma BodyRoundTrip(m: Message)
    requires Valid(m)
    ensures ParsePublish(FlagsOf(m.retain, m.qos, m.dup), Body(m)) == Ok(m)
  {
    var pid := if m.qos > 0 then Bytes16(m.packetId) else [];
    var buf := Body(m);
    var rest := pid + m.payload;
    assert buf == Bytes16(|m.topic|) + m.topic + rest;
    StringRoundTrip(m.topic, rest);
    FlagsRoundTrip(m.retain, m.qos, m.dup);
    Behind(Bytes16(|m.topic|) + m.topic, rest);
    assert buf[2 + |m.topic|..] == rest;
    hide FlagsOf, Body, Bytes16;
    if m.qos > 0 {
      IdRoundTrip(m.packetId, m.payload);
      Behind(Bytes16(|m.topic|) + m.topic + pid, m.payload);
      assert buf == Bytes16(|m.topic|) + m.topic + pid + m.payload;
      assert buf[2 + |m.topic| + 2..] == m.payload;
      assert buf[2 + |m.topic|] == rest[0] && buf[2 + |m.topic| + 1] == rest[1];
    } else {
      assert rest == m.payload;
    }
  }

  lemma FlagsRoundTrip(retain: bool, qos: byte, dup: bool)
    requires qos <= 2
    ensures var f := FlagsOf(retain, qos, dup); (f % 2 != 0) == retain && f / 2 % 4 == qos && (f / 8 % 2 != 0) == dup
  {
  }

  lemma IdRoundTrip(id: u16, rest: seq<byte>)
    ensures var s := Bytes16(id) + rest; Read16(s[0], s[1]) == id
  {
  }

  lemma Behind(a: seq<byte>, b: seq<byte>)
    ensures (a + b)[|a|..] == b
  {
  }

  /** Whatever the parser accepts is exactly what the encoder would have written. */
  lemma ParsedIsEncoded(flags: byte, buf: seq<byte>)
    requires flags < 0x10 && ParsePublish(flags, buf).Ok?
    ensures var m := ParsePublish(flags, buf).value;
            Valid(m) && FlagsOf(m.retain, m.qos, m.dup) == flags && Body(m) == buf
  {
    var m := ParsePublish(flags, buf).value;
    var pos := 2 + |m.topic|;
    FlagsRebuilt(flags);
    ReadBack(buf[0], buf[1]);
    assert buf[2..pos] == m.topic && buf[..2] == Bytes16(|m.topic|);
    Halves(buf, 2, pos);
    if m.qos > 0 {
      ReadBack(buf[pos], buf[pos + 1]);
      Halves(buf, pos, pos + 2);
      assert buf[pos..pos + 2] == Bytes16(m.packetId);
      assert buf == buf[..2] + m.topic + buf[pos..pos + 2] + m.payload;
    } else {
      assert buf == buf[..2] + m.topic + [] + m.payload;
    }
  }

  lemma FlagsRebuilt(f: byte)
    requires f < 0x10
    ensures FlagsOf(f % 2 != 0, f / 2 % 4, f / 8 % 2 != 0) == f
  {
  }

  lemma ReadBack(hi: byte, lo: byte)
    ensures Bytes16(Read16(hi, lo)) == [hi, lo]
  {
  }

  lemma Halves(s: seq<byte>, i: nat, j: nat)
    requires i <= j <= |s|
    ensures s == s[..i] + s[i..j] + s[j..] && s[..j] == s[..i] + s[i..j]
  {
  }

  /** Parsing an encoded PUBLISH gives back its fields and its length, whatever bytes follow. */
  lemma PublishRoundTrip(m: Message, rest: seq<byte>)
    requires Valid(m) && |Body(m)| < VBI_LIMIT
    ensures var h := ParseFixedHeader(Encoded(m) + rest);
            && h.Ok? && h.value.kind == MQTT_PUBLISH
            && PacketComplete(Encoded(m) + rest) == Ok(|Encoded(m)|)
            && ParsePublish(h.value.flags, (Encoded(m) + rest)[h.value.size..|Encoded(m)|]) == Ok(m)
  {
    var flags := FlagsOf(m.retain, m.qos, m.dup);
    var head := FixedHeader(MQTT_PUBLISH, flags, |Body(m)|);
    HeaderRoundTrip(MQTT_PUBLISH, flags, |Body(m)|, Body(m) + rest);
    assert Encoded(m) + rest == head + (Body(m) + rest);
    assert (Encoded(m) + rest)[|head|..|Encoded(m)|] == Body(m);
    BodyRoundTrip(m);
  }

  /** mqtt_publish_size is the encoded length exactly for packets that MQTT allows. */
  lemma SizeIsEncodedLength(m: Message)
    requires |m.topic| < 0x1_0000
    ensures PublishSize(|m.topic|, |m.payload|, m.qos) == |Encoded(m)| <==> |Body(m)| < VBI_LIMIT
  {
    VbiSize(|Body(m)|);
  }
}
