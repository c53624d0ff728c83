/** MQTT packets of app/engine/mqtt_client.c: building them in a bounded buffer,
    splitting the received stream, and reading a PUBLISH. */
module MqttWire {
  import opened Prelude
  import opened Bytes

  const MAX_PACKET := 1024 * 1024
  const BUF_SIZE := 4096
  const PUBLISH := 0x30

  // ----- The packet buffer -----

  /** What an append makes of the bytes so far, none once an append did not fit. */
  function Appended(sofar: Option<seq<byte>>, src: seq<byte>): Option<seq<byte>> {
    if sofar.None? || |sofar.value| + |src| > MAX_PACKET then None else Some(sofar.value + src)
  }

  class PacketBuffer {
    var data: array<byte>
    var len: nat
    var failed: bool

    ghost predicate Valid()
      reads this
    {
      len <= data.Length
    }

    ghost function Contents(): Option<seq<byte>>
      requires Valid()
      reads this, data
    {
      if failed then None else Some(data[..len])
    }

    constructor ()
      ensures Valid() && Contents() == Some([]) && fresh(data)
    {
      data := new byte[64];
      len, failed := 0, false;
      new;
      assert data[..0] == [];
    }

    /** buf_append: a failure is final. */
    method Append(src: seq<byte>)
      requires Valid()
      modifies this, data
      ensures Valid() && (data == old(data) || fresh(data))
      ensures Contents() == Appended(old(Contents()), src)
    {
      if failed {
        return;
      }
      var n := |src|;
      if n > MAX_PACKET || len > MAX_PACKET - n {
        failed := true;
        return;
      }
      if len + n > data.Length {
        var was, m := data, len;
        data := new byte[len + n + 64](i reads was => if 0 <= i < m <= was.Length then was[i] else 0);
        assert data[..len] == was[..m];
      }
      ghost var before := data[..len];
      forall i | 0 <= i < n {
        data[len + i] := src[i];
      }
      len := len + n;
      assert data[..len] == before + src;
    }
  }

  // ----- Framing -----

  /** encode_remaining_length, at most k bytes. */
  function LengthBytes(n: nat, k: nat): seq<byte>
    decreases n
  {
    if k == 0 then []
    else if n < 128 then [n]
    else [n % 128 + 128] + LengthBytes(n / 128, k - 1)
  }

  method EncodeRemainingLength(length: nat) returns (out: seq<byte>)
    ensures out == LengthBytes(length, 4)
  {
    out := [];
    var left := length;
    ghost var all := LengthBytes(length, 4);
    while true
      invariant |out| < 4 && out + LengthBytes(left, 4 - |out|) == all
      decreases 4 - |out|
    {
      ghost var n, k, before := left, 4 - |out|, out;
      var b := left % 128;
      left := left / 128;
      out := out + [if left > 0 then b + 128 else b];
      LengthStep(before, n, k);
      if left == 0 || |out| >= 4 {
        break;
      }
    }
  }

  lemma LengthStep(out: seq<byte>, n: nat, k: nat)
    requires k > 0
    ensures n < 128 ==> out + LengthBytes(n, k) == out + [n % 128]
    ensures n >= 128 ==> out + LengthBytes(n, k) == out + [n % 128 + 128] + LengthBytes(n / 128, k - 1)
  {
  }

  datatype Packet = Packet(header: byte, body: seq<byte>)

  function Frame(p: Packet): seq<byte> {
    [p.header] + LengthBytes(|p.body|, 4) + p.body
  }

  function Stream(ps: seq<Packet>): seq<byte> {
    if ps == [] then [] else Frame(ps[0]) + Stream(ps[1..])
  }

  /** What the receive loop makes of a packet: it looks at it, or drains it. */
  datatype Event = Handled(packet: Packet) | Drained(header: byte, length: nat)

  function EventOf(p: Packet): Event {
    if |p.body| > BUF_SIZE then Drained(p.header, |p.body|) else Handled(p)
  }

  /** The remaining length at the front of s and the bytes it takes. */
  function ReadLength(s: seq<byte>, k: nat): (r: Option<(nat, nat)>)
    ensures r.Some? ==> 0 < r.value.1 <= |s|
    decreases |s|
  {
    if s == [] || k == 0 then None
    else if s[0] < 128 then Some((s[0], 1))
    else
      var rest := ReadLength(s[1..], k - 1);
      if rest.None? then None else Some((s[0] % 128 + 128 * rest.value.0, rest.value.1 + 1))
  }

  /** The packet at the front of s and its size, none when the stream ends in it or
      its length is malformed. */
  function ReadPacket(s: seq<byte>): (r: Option<(Packet, nat)>)
    ensures r.Some? ==> 0 < r.value.1 <= |s|
  {
    if s == [] then None
    else
      var n := ReadLength(s[1..], 4);
      if n.None? then None
      else
        var start := 1 + n.value.1;
        if n.value.0 > |s| - start then None
        else Some((Packet(s[0], s[start..start + n.value.0]), start + n.value.0))
  }

  /** The events of a stream until it ends, is cut short or is malformed. */
  function Events(s: seq<byte>): seq<Event>
    decreases |s|
  {
    var p := ReadPacket(s);
    if p.None? then [] else [EventOf(p.value.0)] + Events(s[p.value.1..])
  }

  function Pow128(k: nat): nat {
    if k == 0 then 1 else 128 * Pow128(k - 1)
  }

  lemma {:induction false} ReadLengthBack(n: nat, k: nat, rest: seq<byte>)
    requires k > 0 && n < Pow128(k)
    ensures ReadLength(LengthBytes(n, k) + rest, k) == Some((n, |LengthBytes(n, k)|))
  {
    if n >= 128 {
      assert Pow128(k) == 128 * Pow128(k - 1);
      ReadLengthBack(n / 128, k - 1, rest);
      var tail := LengthBytes(n / 128, k - 1);
      assert ([n % 128 + 128] + tail + rest)[1..] == tail + rest;
    }
  }

  lemma PacketBack(p: Packet, rest: seq<byte>)
    requires |p.body| < Pow128(4)
    ensures ReadPacket(Frame(p) + rest) == Some((p, |Frame(p)|))
  {
    var length := LengthBytes(|p.body|, 4);
    var s := Frame(p) + rest;
    ReadLengthBack(|p.body|, 4, p.body + rest);
    assert s[1..] == length + (p.body + rest);
    var start := 1 + |length|;
    assert s[start..start + |p.body|] == p.body;
  }

  /** What a sender can put in one packet. */
  predicate Sendable(p: Packet) {
    |p.body| < Pow128(4)
  }

  function EventsOf(ps: seq<Packet>): seq<Event> {
    if ps == [] then [] else [EventOf(ps[0])] + EventsOf(ps[1..])
  }

  /** Any run of packets is split back into the same packets, an oversized one
      being drained to its last byte, and what follows is read from its start. */
  lemma {:induction false} StreamSplitsBack(ps: seq<Packet>, rest: seq<byte>)
    requires forall i | 0 <= i < |ps| :: Sendable(ps[i])
    ensures Events(Stream(ps) + rest) == EventsOf(ps) + Events(rest)
  {
    if ps == [] {
      assert Stream(ps) + rest == rest;
    } else {
      var tail := Stream(ps[1..]) + rest;
      StreamSplitsBack(ps[1..], rest);
      PacketBack(ps[0], tail);
      Associates(Frame(ps[0]), Stream(ps[1..]), rest);
      assert (Frame(ps[0]) + tail)[|Frame(ps[0])|..] == tail;
      Associates([EventOf(ps[0])], EventsOf(ps[1..]), Events(rest));
    }
  }

  /** Packets within the buffer limit are sendable; four length bytes suffice. */
  lemma BuiltPacketsAreSendable(p: Packet)
    requires |p.body| <= MAX_PACKET
    ensures Sendable(p)
  {
    assert Pow128(2) == 16384 && Pow128(3) == 2097152;
  }

  /** The connection: every byte that will arrive, and how many have been taken. */
  class Connection {
    const incoming: seq<byte>
    var pos: nat

    ghost predicate Valid()
      reads this
    {
      pos <= |incoming|
    }

    ghost function Rest(): seq<byte>
      requires Valid()
      reads this
    {
      incoming[pos..]
    }

    constructor (bytes: seq<byte>)
      ensures Valid() && incoming == bytes && pos == 0
    {
      incoming, pos := bytes, 0;
    }

    /** recv_exact: n bytes, or none because the stream ends before. */
    method Receive(n: nat) returns (got: Option<seq<byte>>)
      requires Valid()
      modifies this
      ensures Valid()
      ensures got == if n <= |old(Rest())| then Some(old(Rest())[..n]) else None
      ensures got.Some? ==> Rest() == old(Rest())[n..] && pos == old(pos) + n
    {
      if n > |incoming| - pos {
        pos := |incoming|;
        return None;
      }
      got := Some(incoming[pos..pos + n]);
      assert incoming[pos..][..n] == incoming[pos..pos + n] && incoming[pos..][n..] == incoming[pos + n..];
      pos := pos + n;
    }

    /** The next byte, if the stream has not ended. */
    method ReceiveByte() returns (b: Option<byte>)
      requires Valid()
      modifies this
      ensures Valid() && (b.None? <==> old(Rest()) == [])
      ensures b.Some? ==> b.value == old(Rest())[0] && Rest() == old(Rest())[1..] && pos == old(pos) + 1
    {
      var got := Receive(1);
      return if got.None? then None else Some(got.value[0]);
    }

    /** The loop over at most four length bytes. */
    method ReceiveLength() returns (length: Option<nat>)
      requires Valid()
      modifies this
      ensures Valid()
      ensures length.None? <==> ReadLength(old(Rest()), 4).None?
      ensures length.Some? ==>
        var r := ReadLength(old(Rest()), 4).value;
        length.value == r.0 && Rest() == old(Rest())[r.1..] && pos == old(pos) + r.1
    {
      var value: nat := 0;
      ghost var all := Rest();
      LengthStarts(all);
      for i := 0 to 4
        invariant Valid() && pos == old(pos) + i && Rest() == all[i..]
        invariant LengthSoFar(value, i, all)
      {
        var more;
        value, more := ReceiveGroup(value, i, all);
        if more.None? {
          return None;
        }
        if !more.value {
          return Some(value);
        }
      }
      LengthTooLong(value, all);
      return None;
    }

    /** One length byte is added up; its upper bit says whether more follow. */
    method ReceiveGroup(value: nat, i: nat, ghost all: seq<byte>) returns (sum: nat, more: Option<bool>)
      requires Valid() && i < 4 && LengthSoFar(value, i, all) && Rest() == all[i..]
      modifies this
      ensures Valid() && (more.None? ==> ReadLength(all, 4).None?)
      ensures more.Some? ==> i < |all| && pos == old(pos) + 1 && Rest() == all[i + 1..]
      ensures more.Some? && !more.value ==> ReadLength(all, 4) == Some((sum, i + 1))
      ensures more.Some? && more.value ==> LengthSoFar(sum, i + 1, all)
    {
      var b := ReceiveByte();
      if b.None? {
        LengthCut(value, all);
        return value, None;
      }
      assert all[i..][0] == all[i] && all[i..][1..] == all[i + 1..];
      var group := b.value % 128;
      if b.value < 128 {
        LengthEnds(value, i, all);
        assert group == all[i];
      } else {
        LengthGoesOn(value, i, all);
      }
      return value + Pow128(i) * group, Some(b.value >= 128);
    }

    /** Takes an oversized body in buffer-sized chunks. */
    method Drain(length: nat) returns (ok: bool)
      requires Valid()
      modifies this
      ensures Valid() && ok == (length <= |old(Rest())|)
      ensures ok ==> Rest() == old(Rest())[length..] && pos == old(pos) + length
    {
      var left: nat := length;
      ghost var all := Rest();
      while left > 0
        invariant Valid() && left <= length && length - left <= |all|
        invariant Rest() == all[length - left..] && pos == old(pos) + length - left
        decreases left
      {
        var chunk := if left < BUF_SIZE then left else BUF_SIZE;
        var got := Receive(chunk);
        if got.None? {
          return false;
        }
        assert all[length - left..][chunk..] == all[length - left + chunk..];
        left := left - chunk;
      }
      return true;
    }

    /** One pass of the receive loop: a packet, looked at or drained. */
    method ReceivePacket() returns (e: Option<Event>)
      requires Valid()
      modifies this
      ensures Valid()
      ensures e.None? <==> ReadPacket(old(Rest())).None?
      ensures e.Some? ==>
        var p := ReadPacket(old(Rest())).value;
        e.value == EventOf(p.0) && Rest() == old(Rest())[p.1..] && pos == old(pos) + p.1
    {
      ghost var s := Rest();
      var header := ReceiveByte();
      if header.None? { return None; }
      var length := ReceiveLength();
      if length.None? { return None; }
      ghost var start := 1 + ReadLength(s[1..], 4).value.1;
      Behind(s, start, length.value);
      if length.value > BUF_SIZE {
        var ok := Drain(length.value);
        return if ok then Some(Drained(header.value, length.value)) else None;
      }
      var body := Receive(length.value);
      return if body.Some? then Some(Handled(Packet(header.value, body.value))) else None;
    }

    /** The receive loop's framing. */
    method ReceiveLoop() returns (events: seq<Event>)
      requires Valid()
      modifies this
      ensures Valid() && events == Events(old(Rest()))
    {
      events := [];
      ghost var all := Events(Rest());
      var more := true;
      while more
        invariant Valid()
        invariant more ==> events + Events(Rest()) == all
        invariant !more ==> events == all
        decreases more, |incoming| - pos
      {
        ghost var s := Rest();
        var e := ReceivePacket();
        EventsStep(s, events);
        if e.Some? {
          events := events + [e.value];
        }
        more := e.Some?;
      }
    }
  }

  lemma Behind(s: seq<byte>, start: nat, n: nat)
    requires 1 <= start <= |s|
    ensures s[1..][start - 1..] == s[start..]
    ensures start + n <= |s| ==> s[start..][..n] == s[start..start + n] && s[start..][n..] == s[start + n..]
  {
  }

  lemma EventsStep(s: seq<byte>, before: seq<Event>)
    ensures var p := ReadPacket(s);
      before + Events(s) == if p.None? then before else before + [EventOf(p.value.0)] + Events(s[p.value.1..])
  {
    var p := ReadPacket(s);
    if p.Some? {
      Associates(before, [EventOf(p.value.0)], Events(s[p.value.1..]));
    }
  }

  /** value is the sum of the first i groups of the length. */
  ghost predicate LengthSoFar(value: nat, i: nat, all: seq<byte>) {
    i <= 4 && i <= |all| &&
    var rest := ReadLength(all[i..], 4 - i);
    ReadLength(all, 4) == if rest.None? then None else Some((value + Pow128(i) * rest.value.0, i + rest.value.1))
  }

  lemma LengthStarts(all: seq<byte>)
    ensures LengthSoFar(0, 0, all) && all[0..] == all
  {
  }

  lemma LengthTooLong(value: nat, all: seq<byte>)
    requires LengthSoFar(value, 4, all)
    ensures ReadLength(all, 4).None?
  {
  }

  lemma LengthCut(value: nat, all: seq<byte>)
    requires |all| < 4 && LengthSoFar(value, |all|, all)
    ensures ReadLength(all, 4).None?
  {
  }

  lemma LengthEnds(value: nat, i: nat, all: seq<byte>)
    requires i < 4 && LengthSoFar(value, i, all) && i < |all| && all[i] < 128
    ensures ReadLength(all, 4) == Some((value + Pow128(i) * all[i], i + 1))
  {
    LengthAt(all, i);
  }

  lemma LengthGoesOn(value: nat, i: nat, all: seq<byte>)
    requires i < 4 && LengthSoFar(value, i, all) && i < |all| && all[i] >= 128
    ensures LengthSoFar(value + Pow128(i) * (all[i] % 128), i + 1, all)
  {
    LengthAt(all, i);
    if ReadLength(all[i + 1..], 3 - i).Some? {
      Spread(Pow128(i), all[i] % 128, ReadLength(all[i + 1..], 3 - i).value.0);
    }
  }

  lemma LengthAt(all: seq<byte>, i: nat)
    requires i < |all| && i < 4
    ensures ReadLength(all[i..], 4 - i) ==
      if all[i] < 128 then Some((all[i], 1))
      else
        var rest := ReadLength(all[i + 1..], 3 - i);
        if rest.None? then None else Some((all[i] % 128 + 128 * rest.value.0, rest.value.1 + 1))
  {
    assert all[i..][1..] == all[i + 1..];
  }

  lemma Spread(p: nat, low: nat, high: nat)
    ensures p * (low + 128 * high) == p * low + 128 * p * high
  {
    assert p * (low + 128 * high) == p * low + p * (128 * high);
    assert p * (128 * high) == 128 * p * high;
  }

  // ----- PUBLISH -----

  function U16(v: nat): seq<byte> {
    [v / 256 % 256, v % 256]
  }

  function FromU16(high: byte, low: byte): nat {
    256 * (high as int) + low as int
  }

  function PublishHeader(retain: bool, qos: nat): byte
    requires qos <= 1
  {
    PUBLISH + 2 * qos + if retain then 1 else 0
  }

  /** MQTT_Publish_Binary's variable header and payload; the length of the topic
      is cut to 16 bits. */
  function PublishBody(topic: seq<byte>, payload: seq<byte>, qos: nat, pid: nat): seq<byte> {
    U16(|topic|) + topic + IdBytes(qos, pid) + payload
  }

  function IdBytes(qos: nat, pid: nat): seq<byte> {
    if qos > 0 then U16(pid) else []
  }

  function PublishPacket(topic: seq<byte>, payload: seq<byte>, retain: bool, qos: nat, pid: nat): Packet
    requires qos <= 1
  {
    Packet(PublishHeader(retain, qos), PublishBody(topic, payload, qos, pid))
  }

  method BuildPublish(topic: seq<byte>, payload: seq<byte>, retain: bool, qos: nat, pid: nat)
    returns (packet: Option<seq<byte>>)
    requires qos <= 1 && 0 < pid < 0x1_0000
    ensures var frame := Frame(PublishPacket(topic, payload, retain, qos, pid));
      packet == if |frame| <= 1024 * 1024 then Some(frame) else None
  {
    var pkt := new PacketBuffer();
    var varLen := 2 + |topic| + (if qos > 0 then 2 else 0) + |payload|;
    var length := EncodeRemainingLength(varLen);
    ghost var id := IdBytes(qos, pid);
    ghost var fixed := [PublishHeader(retain, qos)] + length + U16(|topic|) + topic;
    AppendFixed(pkt, [PublishHeader(retain, qos)], length, U16(|topic|), topic);
    if qos > 0 {
      AppendBehind(pkt, fixed, U16(pid));
    }
    assert qos == 0 ==> fixed + id == fixed;
    if payload != [] {
      AppendBehind(pkt, fixed + id, payload);
    }
    assert payload == [] ==> fixed + id + payload == fixed + id;
    PublishText([PublishHeader(retain, qos)], length, U16(|topic|), topic, id, payload);
    packet := if pkt.failed then None else Some(pkt.data[..pkt.len]);
  }

  /** The four parts every PUBLISH starts with. */
  method AppendFixed(pkt: PacketBuffer, a: seq<byte>, b: seq<byte>, c: seq<byte>, d: seq<byte>)
    requires pkt.Valid() && pkt.Contents() == Some([])
    modifies pkt, pkt.data
    ensures pkt.Valid() && (pkt.data == old(pkt.data) || fresh(pkt.data))
    ensures pkt.Contents() == Limited(a + b + c + d)
  {
    AppendBehind(pkt, [], a);
    assert [] + a == a;
    AppendBehind(pkt, a, b);
    AppendBehind(pkt, a + b, c);
    AppendBehind(pkt, a + b + c, d);
  }

  /** What an append does to contents within the limit, or past it already. */
  method AppendBehind(pkt: PacketBuffer, ghost before: seq<byte>, src: seq<byte>)
    requires pkt.Valid() && pkt.Contents() == Limited(before)
    modifies pkt, pkt.data
    ensures pkt.Valid() && (pkt.data == old(pkt.data) || fresh(pkt.data))
    ensures pkt.Contents() == Limited(before + src)
  {
    pkt.Append(src);
  }

  function Limited(s: seq<byte>): Option<seq<byte>> {
    if |s| > MAX_PACKET then None else Some(s)
  }

  lemma PublishText(a: seq<byte>, b: seq<byte>, c: seq<byte>, d: seq<byte>, e: seq<byte>, f: seq<byte>)
    ensures a + b + (c + d + e + f) == a + b + c + d + e + f
  {
  }

  datatype Delivery = Delivery(topic: seq<byte>, payload: seq<byte>, ack: Option<nat>)

  function AckOf(qos: nat, pid: nat): Option<nat> {
    if qos == 1 then Some(pid) else None
  }

  /** handle_publish: what is handed on and which packet id is acknowledged. */
  function ReadPublish(body: seq<byte>, qos: nat): Option<Delivery> {
    if |body| < 2 then None
    else
      var topicLen := FromU16(body[0], body[1]);
      var afterTopic := 2 + topicLen;
      if afterTopic > |body| then None
      else
        var topic := CString(body[2..afterTopic]);
        if qos == 1 then
          if afterTopic + 2 > |body| then None
          else Some(Delivery(topic, body[afterTopic + 2..], Some(FromU16(body[afterTopic], body[afterTopic + 1]))))
        else Some(Delivery(topic, body[afterTopic..], None))
  }

  method HandlePublish(body: seq<byte>, qos: nat) returns (m: Option<Delivery>)
    ensures m == ReadPublish(body, qos)
  {
    if |body| < 2 { return None; }
    var pos := 0;
    var topicLen := FromU16(body[pos], body[pos + 1]);
    pos := pos + 2;
    if pos + topicLen > |body| { return None; }
    var topic := CString(body[pos..pos + topicLen]);
    pos := pos + topicLen;
    var ack := None;
    if qos == 1 {
      if pos + 2 > |body| { return None; }
      ack := Some(FromU16(body[pos], body[pos + 1]));
      pos := pos + 2;
    }
    return Some(Delivery(topic, body[pos..], ack));
  }

  function QosOf(header: byte): nat {
    header / 2 % 4
  }

  /** Behind a length of two bytes a longer topic reads as its front only. */
  lemma ReadFront(length: seq<byte>, topic: seq<byte>, id: seq<byte>, payload: seq<byte>, qos: nat)
    requires |length| == 2 && |topic| > 0xFFFF && 0 !in topic
    ensures var back := ReadPublish(length + topic + id + payload, qos);
      back.Some? ==> |back.value.topic| == FromU16(length[0], length[1]) < |topic|
  {
    var n := FromU16(length[0], length[1]);
    CutTopic(length, topic, id, payload, n);
    ReadParts(length, topic[..n], topic[n..] + id + payload, qos);
    CStringWhole(topic[..n]);
  }

  /** A topic whose length fits in 16 bits is read whole. */
  lemma ReadShortTopic(topic: seq<byte>, payload: seq<byte>, qos: nat, pid: nat)
    requires 0 !in topic && |topic| <= 0xFFFF && qos <= 1 && 0 < pid < 0x1_0000
    ensures ReadPublish(PublishBody(topic, payload, qos, pid), qos) ==
      Some(Delivery(topic, payload, AckOf(qos, pid)))
  {
    TopicLength(|topic|);
    ReadParts(U16(|topic|), topic, IdBytes(qos, pid) + payload, qos);
    Associates(U16(|topic|) + topic, IdBytes(qos, pid), payload);
    CStringWhole(topic);
    IdBack(qos, pid, payload);
  }

  lemma IdBack(qos: nat, pid: nat, payload: seq<byte>)
    requires qos <= 1 && pid < 0x1_0000
    ensures var tail := IdBytes(qos, pid) + payload;
      if qos == 1 then |tail| >= 2 && FromU16(tail[0], tail[1]) == pid && tail[2..] == payload else tail == payload
  {
    TopicLength(pid);
  }

  /** A body whose first two bytes give the length of what stands before the tail. */
  lemma ReadParts(length: seq<byte>, front: seq<byte>, tail: seq<byte>, qos: nat)
    requires |length| == 2 && FromU16(length[0], length[1]) == |front|
    ensures ReadPublish(length + front + tail, qos) ==
      if qos != 1 then Some(Delivery(CString(front), tail, None))
      else if |tail| < 2 then None
      else Some(Delivery(CString(front), tail[2..], Some(FromU16(tail[0], tail[1]))))
  {
    var body := length + front + tail;
    var at := 2 + |front|;
    assert body[0] == length[0] && body[1] == length[1] && body[2..at] == front && body[at..] == tail;
    if |tail| >= 2 {
      assert body[at] == tail[0] && body[at + 1] == tail[1] && body[at + 2..] == tail[2..];
    }
  }

  lemma CutTopic(length: seq<byte>, topic: seq<byte>, id: seq<byte>, payload: seq<byte>, n: nat)
    requires n <= |topic|
    ensures length + topic + id + payload == length + topic[..n] + (topic[n..] + id + payload)
  {
    assert topic == topic[..n] + topic[n..];
  }

  /** A published message is read back with its topic, packet id and payload if and
      only if the topic's length fits in 16 bits. */
  lemma PublishReadBack(topic: seq<byte>, payload: seq<byte>, retain: bool, qos: nat, pid: nat)
    requires 0 !in topic && qos <= 1 && 0 < pid < 0x1_0000
    ensures QosOf(PublishPacket(topic, payload, retain, qos, pid).header) == qos
    ensures var header := PublishPacket(topic, payload, retain, qos, pid).header;
      header / 16 == 3 && header / 8 % 2 == 0 && (header % 2 == 1 <==> retain)
    ensures |topic| <= 0xFFFF <==>
      ReadPublish(PublishBody(topic, payload, qos, pid), qos) == Some(Delivery(topic, payload, AckOf(qos, pid)))
  {
    HeaderBack(retain, qos);
    if |topic| <= 0xFFFF {
      ReadShortTopic(topic, payload, qos, pid);
    } else {
      ReadFront(U16(|topic|), topic, IdBytes(qos, pid), payload, qos);
    }
  }

  lemma HeaderBack(retain: bool, qos: nat)
    requires qos <= 1
    ensures QosOf(PublishHeader(retain, qos)) == qos
    ensures var header := PublishHeader(retain, qos);
      header / 16 == 3 && header / 8 % 2 == 0 && (header % 2 == 1 <==> retain)
  {
  }

  /** A topic of 65536 bytes arrives empty, its bytes at the front of the payload. */
  lemma LongTopicArrivesEmpty(topic: seq<byte>, payload: seq<byte>)
    requires |topic| == 0x1_0000
    ensures ReadPublish(PublishBody(topic, payload, 0, 1), 0) == Some(Delivery([], topic + payload, None))
  {
    TopicLength(|topic|);
    assert PublishBody(topic, payload, 0, 1) == U16(|topic|) + [] + (topic + payload);
    ReadParts(U16(|topic|), [], topic + payload, 0);
  }

  lemma TopicLength(n: nat)
    ensures 256 * (n / 256 % 256) + n % 256 == n % 0x1_0000
  {
  }

  /** End to end: what the client sends, another such client receives, within its
      receive buffer of 4096 bytes; a larger body is drained. */
  lemma PublishTravels(topic: seq<byte>, payload: seq<byte>, retain: bool, qos: nat, pid: nat, rest: seq<byte>)
    requires 0 !in topic && qos <= 1 && 0 < pid < 0x1_0000
    requires var p := PublishPacket(topic, payload, retain, qos, pid); |p.body| <= MAX_PACKET
    ensures var p := PublishPacket(topic, payload, retain, qos, pid);
      if |p.body| <= 4096 then
        Events(Frame(p) + rest) == [Handled(p)] + Events(rest) &&
        ReadPublish(p.body, QosOf(p.header)) == Some(Delivery(topic, payload, AckOf(qos, pid)))
      else Events(Frame(p) + rest) == [Drained(p.header, |p.body|)] + Events(rest)
  {
    var p := PublishPacket(topic, payload, retain, qos, pid);
    BuiltPacketsAreSendable(p);
    PacketBack(p, rest);
    assert (Frame(p) + rest)[|Frame(p)|..] == rest;
    PublishReadBack(topic, payload, retain, qos, pid);
  }

  // ----- Bytes as the standard shows them -----

  /** Remaining lengths, section 2.2.3 of MQTT 3.1.1. */
  lemma LengthsOnTheWire()
    ensures LengthBytes(0, 4) == [0x00] && LengthBytes(127, 4) == [0x7F]
    ensures LengthBytes(128, 4) == [0x80, 0x01] && LengthBytes(321, 4) == [0xC1, 0x02]
    ensures LengthBytes(16383, 4) == [0xFF, 0x7F] && LengthBytes(16384, 4) == [0x80, 0x80, 0x01]
    ensures LengthBytes(268435455, 4) == [0xFF, 0xFF, 0xFF, 0x7F]
  {
  }

  /** Topic "a/b", payload "hi", retained, QoS 1 under packet identifier 10. */
  lemma PublishOnTheWire()
    ensures Frame(PublishPacket([0x61, 0x2F, 0x62], [0x68, 0x69], true, 1, 10)) ==
      [0x33, 0x09, 0x00, 0x03, 0x61, 0x2F, 0x62, 0x00, 0x0A, 0x68, 0x69]
  {
  }
}
