/** What the bytes of a packet are, said without the functions that build them (src/mqtt/packet.h, src/mqtt/publish.h,
    src/broker/mqtt_fsm.h; sections 2.2.3, 3.3 and 3.6 of MQTT Version 3.1.1). */
module OnTheWire {
  import opened Common
  import opened Packet
  import opened Publish
  import opened Inflight
  import opened Egress
  import opened Ceremony
  import opened Acks

  /** A little-endian number in base 128. */
  function Base128(s: seq<byte>): nat {
    if s == [] then 0 else s[0] % 0x80 + 0x80 * Base128(s[1..])
  }

  /** The remaining length is written in base 128, least significant byte first, in as few bytes as it takes, with bit 7 set
      on every byte but the last. */
  lemma {:induction false} VbiIsBase128(x: nat)
    ensures var s := Vbi(x);
            && Base128(s) == x
            && (forall k :: 0 <= k < |s| ==> (s[k] >= 0x80 <==> k < |s| - 1))
            && (|s| > 1 ==> s[|s| - 1] != 0)
  {
    var s := Vbi(x);
    if x >= 0x80 {
      VbiIsBase128(x / 0x80);
      assert s[1..] == Vbi(x / 0x80);
    }
  }

  /** One PUBLISH byte by byte: type 3 in the high half of the first byte; DUP, QoS and RETAIN in bits 3, 2-1 and 0; topic
      length and packet id with the high byte first. */
  lemma PublishBytes(retain: bool, dup: bool, qos: byte, id: u16)
    requires qos <= 2
    ensures var w := Encoded(Message(retain, qos, dup, [0x61, 0x2F, 0x62], id, [0x68, 0x69]));
            w == [0x30 + (if dup then 8 else 0) + 2 * qos + (if retain then 1 else 0), if qos == 0 then 7 else 9, 0, 3, 0x61, 0x2F, 0x62]
                 + (if qos == 0 then [] else [id / 0x100, id % 0x100]) + [0x68, 0x69]
  {
    var m := Message(retain, qos, dup, [0x61, 0x2F, 0x62], id, [0x68, 0x69]);
    assert Body(m) == [0, 3, 0x61, 0x2F, 0x62] + (if qos == 0 then [] else [id / 0x100, id % 0x100]) + [0x68, 0x69];
  }

  /** Four unsent bytes that the parser takes for a PUBREL with the flags 0010 and this id. */
  predicate ReadsAsPubrel(s: Seg, id: u16) {
    && s.kind == SEG_CTRL && s.cursor == 0 && s.ctrlLen == 4 <= |s.ctrl|
    && var w := s.ctrl[..s.ctrlLen];
       ParseFixedHeader(w) == Ok(Header(6, 2, 2, 2)) && PacketComplete(w) == Ok(4) && Read16(w[2], w[3]) == id
  }

  /** A PUBREC is answered with a PUBREL of its own id: whether or not an entry waits for it, as long as the ring is not
      full, four bytes are queued behind everything else, unsent, and they read as PUBREL with the flags 0010 and this id. */
  lemma PubrelOnTheWire(s: Site, id: u16)
    requires Consistent(s.c.slots) && Shaped(s.c.slots) && !Full(s.c)
    ensures var q := PubrecReceived(s, id).c.queue;
            q != [] && ReadsAsPubrel(q[|q| - 1], id)
  {
    hide Consistent, Shaped, PubrecReceived, ParseFixedHeader, PacketComplete;
    PubrecExact(s, id);
    PubrelReads(s.c.generation, id);
  }

  lemma PubrelReads(generation: byte, id: u16)
    ensures var w := PubrelSeg(generation, id).ctrl[..4];
            && ParseFixedHeader(w) == Ok(Header(6, 2, 2, 2)) && PacketComplete(w) == Ok(4) && Read16(w[2], w[3]) == id
  {
    var w := PubrelSeg(generation, id).ctrl[..4];
    assert ParseVbi(w, 1, 0, 1) == Ok((2, 2));
  }
}
