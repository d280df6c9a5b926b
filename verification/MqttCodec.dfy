/** The codec as src/mqtt/codec.rs runs it: readers move an offset through a payload, lists and
    lengths are loops, and the inbound buffer is drained in place. Every method is tied to the
    syntax of MqttSyntax. */
module MqttCodec {
  import opened Wrappers
  import opened MqttSyntax

  /** `value` and `next` are what reading at `offset` yields when `field` is what the rest of
      the payload starts with. */
  ghost predicate Read<T(!new)>(field: Field<T>, data: Bytes, value: Option<T>, next: nat) {
    match field
    case Truncated => value.None?
    case Field(v, rest) => value == Some(v) && next <= |data| && data[next..] == rest
  }

  method ReadU8(data: Bytes, offset: nat) returns (value: Option<byte>, next: nat)
    requires offset <= |data|
    ensures Read(TakeU8(data[offset..]), data, value, next)
  {
    next := offset;
    if offset >= |data| {
      return None, next;
    }
    value := Some(data[offset]);
    next := offset + 1;
  }

  method ReadU16(data: Bytes, offset: nat) returns (value: Option<u16>, next: nat)
    requires offset <= |data|
    ensures Read(TakeU16(data[offset..]), data, value, next)
  {
    next := offset;
    if offset + 2 > |data| {
      return None, next;
    }
    value := Some(Word(data[offset], data[offset + 1]));
    next := offset + 2;
  }

  method ReadBytes(data: Bytes, offset: nat) returns (value: Option<Bytes>, next: nat)
    requires offset <= |data|
    ensures Read(TakeField(data[offset..]), data, value, next)
  {
    var len;
    len, next := ReadU16(data, offset);
    if len.None? || next + len.value > |data| {
      return None, next;
    }
    var end := next + len.value;
    assert data[next..][..len.value] == data[next..end];
    assert data[next..][len.value..] == data[end..];
    value := Some(data[next..end]);
    next := end;
  }

  method ReadString(data: Bytes, offset: nat) returns (value: Option<Bytes>, next: nat)
    requires offset <= |data|
    ensures Read(TakeString(data[offset..]), data, value, next)
  {
    value, next := ReadBytes(data, offset);
    if value.Some? && !ValidUtf8(value.value) {
      value := None;
    }
  }

  /** A field present only under a flag. */
  method ReadOptional(present: bool, text: bool, data: Bytes, offset: nat)
    returns (value: Option<Option<Bytes>>, next: nat)
    requires offset <= |data|
    ensures Read(TakeOptional(present, text, data[offset..]), data, value, next)
  {
    if !present {
      return Some(None), offset;
    }
    var v;
    if text {
      v, next := ReadString(data, offset);
    } else {
      v, next := ReadBytes(data, offset);
    }
    value := if v.Some? then Some(v) else None;
  }

  method DecodeCredentials(level: byte, flags: byte, keepAlive: u16, clientId: Bytes,
                           payload: Bytes, offset: nat) returns (p: Option<Packet>)
    requires offset <= |payload|
    ensures var c := TakeCredentials(flags, payload[offset..]);
      p == if c.Field?
           then Some(Connect(level, FlagSet(flags, 0x02), keepAlive, clientId, c.value.0, c.value.1))
           else None
  {
    var username, password, at;
    username, at := ReadOptional(FlagSet(flags, 0x80), true, payload, offset);
    if username.None? { return None; }
    password, at := ReadOptional(FlagSet(flags, 0x40), false, payload, at);
    if password.None? { return None; }
    p := Some(Connect(level, FlagSet(flags, 0x02), keepAlive, clientId,
                      username.value, password.value));
  }

  method DecodeConnectTail(level: byte, flags: byte, payload: Bytes, offset: nat)
    returns (p: Option<Packet>)
    requires offset <= |payload|
    ensures p == Accept(TakeConnectTail(level, flags, payload[offset..]))
  {
    var keepAlive, clientId, will, at;
    keepAlive, at := ReadU16(payload, offset);
    if keepAlive.None? { return None; }
    clientId, at := ReadString(payload, at);
    if clientId.None? { return None; }
    will, at := ReadOptional(FlagSet(flags, 0x04), true, payload, at);
    if will.None? { return None; }
    will, at := ReadOptional(FlagSet(flags, 0x04), false, payload, at);
    if will.None? { return None; }
    p := DecodeCredentials(level, flags, keepAlive.value, clientId.value, payload, at);
  }

  method DecodeConnect(payload: Bytes) returns (p: Option<Packet>)
    ensures p == Accept(ParseConnect(payload))
  {
    hide TakeString, TakeConnectTail, FlagSet;
    assert payload[0..] == payload;
    var protocol, level, flags, at;
    protocol, at := ReadString(payload, 0);
    if protocol.None? { return None; }
    level, at := ReadU8(payload, at);
    if level.None? { return None; }
    if !((protocol.value == PROTOCOL_311 && level.value == 4)
         || (protocol.value == PROTOCOL_31 && level.value == 3)) {
      return None;
    }
    flags, at := ReadU8(payload, at);
    if flags.None? || FlagSet(flags.value, 0x01) { return None; }
    p := DecodeConnectTail(level.value, flags.value, payload, at);
  }

  method DecodePublish(flags: byte, payload: Bytes) returns (p: Option<Packet>)
    requires flags < 16
    ensures p == Accept(ParsePublish(flags, payload))
  {
    assert payload[0..] == payload;
    var qos := flags / 2 % 4;
    if qos > 2 { return None; }
    var topic, at := ReadString(payload, 0);
    if topic.None? { return None; }
    var packetId: Option<u16> := None;
    if qos > 0 {
      packetId, at := ReadU16(payload, at);
      if packetId.None? { return None; }
    }
    p := Some(Publish(FlagSet(flags, 8), qos, FlagSet(flags, 1), topic.value, packetId,
                      payload[at..]));
  }

  /** `done` entries were read and the rest reads as `rest`. */
  ghost function Continue<T>(done: seq<T>, rest: Option<seq<T>>): Option<seq<T>> {
    if rest.Some? then Some(done + rest.value) else None
  }

  lemma AddOne<T>(done: seq<T>, x: T, tail: seq<T>)
    ensures done + ([x] + tail) == done + [x] + tail
  {
  }

  /** What one turn of `DecodeFilters` does to the list still to be read. */
  lemma FiltersOneMore(done: seq<SubscribeFilter>, data: Bytes)
    requires data != []
    ensures var goal := Continue(done, TakeFilters(data));
      match TakeFilter(data)
      case Truncated => goal == None
      case Field(f, rest) => |rest| < |data| && goal == Continue(done + [f], TakeFilters(rest))
  {
    hide TakeFilter;
    match TakeFilter(data)
    case Truncated =>
    case Field(f, rest) =>
      FilterAccepted(data);
      if TakeFilters(rest).Some? { AddOne(done, f, TakeFilters(rest).value); }
  }

  lemma StringShortens(data: Bytes)
    ensures TakeString(data).Field? ==> |TakeString(data).rest| < |data|
  {
    FieldAccounts(data);
  }

  lemma TopicsUnfold(data: Bytes)
    requires data != []
    ensures TakeTopics(data) ==
      match TakeString(data)
      case Truncated => None
      case Field(topic, rest) => Continue([topic], TakeTopics(rest))
  {
    hide TakeString;
  }

  /** What one turn of `DecodeTopics` does to the list still to be read. */
  lemma TopicsOneMore(done: seq<Bytes>, data: Bytes)
    requires data != []
    ensures var goal := Continue(done, TakeTopics(data));
      match TakeString(data)
      case Truncated => goal == None
      case Field(topic, rest) => |rest| < |data| && goal == Continue(done + [topic], TakeTopics(rest))
  {
    TopicsUnfold(data);
    StringShortens(data);
    hide TakeString, TakeTopics;
    match TakeString(data)
    case Truncated =>
    case Field(topic, rest) =>
      if TakeTopics(rest).Some? { AddOne(done, topic, TakeTopics(rest).value); }
  }

  /** One entry of a SUBSCRIBE. */
  method DecodeFilter(payload: Bytes, offset: nat) returns (r: Option<SubscribeFilter>, next: nat)
    requires offset <= |payload|
    ensures Read(TakeFilter(payload[offset..]), payload, r, next)
  {
    hide TakeString;
    var topic, qos;
    topic, next := ReadString(payload, offset);
    if topic.None? { return None, next; }
    qos, next := ReadU8(payload, next);
    if qos.None? || qos.value > 2 { return None, next; }
    r := Some(SubscribeFilter(topic.value, qos.value));
  }

  method DecodeFilters(payload: Bytes, offset: nat) returns (r: Option<seq<SubscribeFilter>>)
    requires offset <= |payload|
    ensures r == TakeFilters(payload[offset..])
  {
    var filters: seq<SubscribeFilter> := [];
    var at := offset;
    ghost var goal := TakeFilters(payload[offset..]);
    assert goal.Some? ==> [] + goal.value == goal.value;
    assert TakeFilters([]) == Some([]);
    hide TakeFilters, TakeFilter;
    while at < |payload|
      invariant at <= |payload|
      invariant goal == Continue(filters, TakeFilters(payload[at..]))
      decreases |payload| - at
    {
      FiltersOneMore(filters, payload[at..]);
      var f;
      f, at := DecodeFilter(payload, at);
      if f.None? { return None; }
      filters := filters + [f.value];
    }
    assert payload[at..] == [] && filters + [] == filters;
    r := Some(filters);
  }

  method DecodeTopics(payload: Bytes, offset: nat) returns (r: Option<seq<Bytes>>)
    requires offset <= |payload|
    ensures r == TakeTopics(payload[offset..])
  {
    var topics: seq<Bytes> := [];
    var at := offset;
    ghost var goal := TakeTopics(payload[offset..]);
    assert goal.Some? ==> [] + goal.value == goal.value;
    assert TakeTopics([]) == Some([]);
    hide TakeTopics, TakeString;
    while at < |payload|
      invariant at <= |payload|
      invariant goal == Continue(topics, TakeTopics(payload[at..]))
      decreases |payload| - at
    {
      TopicsOneMore(topics, payload[at..]);
      var topic;
      topic, at := ReadString(payload, at);
      if topic.None? { return None; }
      topics := topics + [topic.value];
    }
    assert payload[at..] == [] && topics + [] == topics;
    r := Some(topics);
  }

  method DecodeSubscribe(payload: Bytes) returns (p: Option<Packet>)
    ensures p == Accept(ParseSubscribe(payload))
  {
    assert payload[0..] == payload;
    var id, at := ReadU16(payload, 0);
    if id.None? { return None; }
    var filters := DecodeFilters(payload, at);
    if filters.None? || filters.value == [] { return None; }
    p := Some(Subscribe(id.value, filters.value));
  }

  method DecodeUnsubscribe(payload: Bytes) returns (p: Option<Packet>)
    ensures p == Accept(ParseUnsubscribe(payload))
  {
    assert payload[0..] == payload;
    var id, at := ReadU16(payload, 0);
    if id.None? { return None; }
    var topics := DecodeTopics(payload, at);
    if topics.None? || topics.value == [] { return None; }
    p := Some(Unsubscribe(id.value, topics.value));
  }

  /** A payload that is a packet id and nothing else. */
  method RequirePacketId(payload: Bytes) returns (id: Option<u16>)
    ensures id.Some? <==> |payload| == 2
    ensures id.Some? ==> PutU16(id.value) == payload
  {
    if |payload| != 2 {
      return None;
    }
    id := Some(Word(payload[0], payload[1]));
  }

  /** The packets whose payload is their packet id. */
  method DecodeShort(packetType: byte, flags: byte, payload: Bytes) returns (p: Option<Packet>)
    requires flags < 16 && packetType in {4, 5, 6, 7, 11}
    ensures p == ParsePayload(packetType, flags, payload)
  {
    if packetType == 6 && flags != 2 {
      return None;
    }
    var id := RequirePacketId(payload);
    if id.None? {
      return None;
    }
    match packetType {
      case 4 => p := Some(PubAck(id.value));
      case 5 => p := Some(PubRec(id.value));
      case 6 => p := Some(PubRel(id.value));
      case 7 => p := Some(PubComp(id.value));
      case _ => p := Some(UnsubAck(id.value));
    }
  }

  method DecodePayload(packetType: byte, flags: byte, payload: Bytes) returns (p: Option<Packet>)
    requires flags < 16
    ensures p == ParsePayload(packetType, flags, payload)
  {
    hide ParseConnect, ParsePublish, ParseSubscribe, ParseUnsubscribe;
    match packetType {
      case 1 =>
        if flags != 0 { return None; }
        p := DecodeConnect(payload);
      case 2 =>
        if |payload| != 2 { return None; }
        p := Some(ConnAck(payload[0] % 2 != 0, payload[1]));
      case 3 =>
        p := DecodePublish(flags, payload);
      case 8 =>
        if flags != 2 { return None; }
        p := DecodeSubscribe(payload);
      case 9 =>
        if |payload| < 2 { return None; }
        p := Some(SubAck(Word(payload[0], payload[1]), payload[2..]));
      case 10 =>
        if flags != 2 { return None; }
        p := DecodeUnsubscribe(payload);
      case 12 =>
        p := if payload == [] then Some(PingReq) else None;
      case 13 =>
        p := if payload == [] then Some(PingResp) else None;
      case 14 =>
        p := if payload == [] then Some(Disconnect) else None;
      case _ =>
        if packetType !in {4, 5, 6, 7, 11} { return None; }
        p := DecodeShort(packetType, flags, payload);
    }
  }

  /** The digits read so far, `scale` being 128 to the power of their number. */
  method DecodeRemainingLength(buf: Bytes) returns (r: Length)
    ensures r == TakeLength(buf, 0)
  {
    var value: nat := 0;
    var multiplier: nat := 1;
    ghost var goal := TakeLength(buf, 0);
    assert buf[0..] == buf;
    for index := 0 to |buf|
      invariant index <= 4
      invariant goal == Shifted(value, multiplier, index, TakeLength(buf[index..], index))
    {
      if index >= 4 {
        return BadLength;
      }
      var digit: nat := buf[index] % 128;
      ShiftStep(multiplier, digit, 0);
      value := value + digit * multiplier;
      if buf[index] < 128 {
        return Length(value, index + 1);
      }
      assert buf[index..][1..] == buf[index + 1..];
      ghost var rest := TakeLength(buf[index + 1..], index + 1);
      if rest.Length? {
        ShiftStep(multiplier, digit, rest.value);
      }
      multiplier := multiplier * 128;
    }
    assert buf[|buf|..] == [];
    r := Incomplete;
  }

  /** `index` digits worth `value` stand before what `rest` says. */
  ghost function Shifted(value: nat, scale: nat, index: nat, rest: Length): Length {
    if rest.Length? then Length(value + scale * rest.value, index + rest.used) else rest
  }

  lemma ShiftStep(scale: nat, digit: nat, v: nat)
    ensures digit * scale >= 0
    ensures scale * (digit + 128 * v) == digit * scale + scale * 128 * v
  {
  }

  method EncodeRemainingLength(n: nat, out: Bytes) returns (r: Bytes)
    ensures r == out + PutLength(n)
  {
    if n == 0 {
      return out + [0];
    }
    r := out;
    var len: nat := n;
    while len > 0
      invariant len > 0 ==> r + PutLength(len) == out + PutLength(n)
      invariant len == 0 ==> r == out + PutLength(n)
    {
      var digit: byte := len % 128;
      ghost var before := len;
      len := len / 128;
      if len > 0 {
        digit := digit + 128;
        assert PutLength(before) == [digit] + PutLength(len);
        assert r + PutLength(before) == r + [digit] + PutLength(len);
      }
      r := r + [digit];
    }
  }

  method Wrap(packetType: byte, flags: byte, payload: Bytes) returns (out: Bytes)
    requires packetType < 16 && flags < 16
    ensures out == [packetType * 16 + flags] + PutLength(|payload|) + payload
  {
    out := EncodeRemainingLength(|payload|, [packetType * 16 + flags]);
    out := out + payload;
  }

  /** The flags of a CONNECT; each is added to flags that do not have it. */
  method FlagsOfConnect(p: Packet) returns (flags: byte)
    requires p.Connect?
    ensures flags == ConnectFlags(p)
  {
    flags := 0;
    if p.cleanSession {
      flags := flags + 0x02;
    }
    if p.username.Some? {
      flags := flags + 0x80;
    }
    if p.password.Some? {
      flags := flags + 0x40;
    }
  }

  /** `encode_connect`. */
  method EncodeConnect(p: Packet) returns (out: Bytes)
    requires p.Connect?
    ensures out == Print(p)
  {
    hide PutField, PutU16, PutLength, ConnectFlags;
    var body := [];
    if p.protocolLevel == 3 {
      body := body + PutField(PROTOCOL_31) + [3];
    } else {
      body := body + PutField(PROTOCOL_311) + [4];
    }
    var flags := FlagsOfConnect(p);
    body := body + [flags];
    var tail := PutU16(p.keepAlive) + PutField(p.clientId);
    if p.username.Some? {
      tail := tail + PutField(p.username.value);
    }
    if p.password.Some? {
      tail := tail + PutField(p.password.value);
    }
    assert tail == ConnectTail(p);
    body := body + tail;
    assert body == Body(p) by { hide ConnectTail; }
    out := Wrap(1, 0, body);
  }

  /** `encode_publish`; a quality of service above two is sent as two. */
  method EncodePublish(p: Packet) returns (out: Bytes)
    requires p.Publish?
    ensures out == Print(p)
  {
    hide PutField, PutU16;
    var qos := if p.qos <= 2 then p.qos else 2;
    var flags := 0;
    if p.dup {
      flags := flags + 0x08;
    }
    flags := flags + 2 * qos;
    if p.retain {
      flags := flags + 0x01;
    }
    var body := PutField(p.topic);
    if qos > 0 {
      var id := match p.messageId case Some(id) => id case None => 1;
      body := body + PutU16(id);
    }
    body := body + p.payload;
    assert body == Body(p);
    out := Wrap(3, flags, body);
  }

  method SubscribeBody(id: u16, filters: seq<SubscribeFilter>) returns (body: Bytes)
    ensures body == PutU16(id) + PutFilters(filters)
  {
    hide PutField, PutU16;
    body := PutU16(id);
    assert filters[0..] == filters;
    for i := 0 to |filters|
      invariant body + PutFilters(filters[i..]) == PutU16(id) + PutFilters(filters)
    {
      var f := filters[i];
      assert filters[i..][1..] == filters[i + 1..];
      body := body + PutField(f.topic);
      body := body + [Min(f.qos, 2)];
    }
    assert PutFilters(filters[|filters|..]) == [];
  }

  method UnsubscribeBody(id: u16, topics: seq<Bytes>) returns (body: Bytes)
    ensures body == PutU16(id) + PutTopics(topics)
  {
    hide PutField, PutU16;
    body := PutU16(id);
    assert topics[0..] == topics;
    for i := 0 to |topics|
      invariant body + PutTopics(topics[i..]) == PutU16(id) + PutTopics(topics)
    {
      assert topics[i..][1..] == topics[i + 1..];
      body := body + PutField(topics[i]);
    }
    assert PutTopics(topics[|topics|..]) == [];
  }

  method EncodeSubscribe(id: u16, filters: seq<SubscribeFilter>) returns (out: Bytes)
    ensures out == Print(Subscribe(id, filters))
  {
    hide PutFilters, PutU16, PutLength;
    var body := SubscribeBody(id, filters);
    out := Wrap(8, 2, body);
  }

  method EncodeUnsubscribe(id: u16, topics: seq<Bytes>) returns (out: Bytes)
    ensures out == Print(Unsubscribe(id, topics))
  {
    hide PutTopics, PutU16, PutLength;
    var body := UnsubscribeBody(id, topics);
    out := Wrap(10, 2, body);
  }

  /** The packets made of an identifier, or of nothing. */
  method EncodeShort(p: Packet) returns (out: Bytes)
    requires p.PubAck? || p.PubRec? || p.PubRel? || p.PubComp? || p.UnsubAck? || p.PingReq? || p.PingResp?
          || p.Disconnect?
    ensures out == Print(p)
  {
    hide PutLength, PutU16;
    match p {
      case PubAck(id) => out := Wrap(4, 0, PutU16(id));
      case PubRec(id) => out := Wrap(5, 0, PutU16(id));
      case PubRel(id) => out := Wrap(6, 2, PutU16(id));
      case PubComp(id) => out := Wrap(7, 0, PutU16(id));
      case UnsubAck(id) => out := Wrap(11, 0, PutU16(id));
      case PingReq => out := Wrap(12, 0, []);
      case PingResp => out := Wrap(13, 0, []);
      case Disconnect => out := Wrap(14, 0, []);
    }
  }

  method EncodeAnswer(p: Packet) returns (out: Bytes)
    requires p.ConnAck? || p.SubAck?
    ensures out == Print(p)
  {
    hide PutLength, PutU16;
    match p {
      case ConnAck(present, code) => out := Wrap(2, 0, [if present then 1 else 0, code]);
      case SubAck(id, codes) => out := Wrap(9, 0, PutU16(id) + codes);
    }
  }

  /** `encode` without the statement about decoding. */
  method EncodePacket(p: Packet) returns (out: Bytes)
    ensures out == Print(p)
  {
    hide Print;
    match p {
      case Connect(_, _, _, _, _, _) => out := EncodeConnect(p);
      case Publish(_, _, _, _, _, _) => out := EncodePublish(p);
      case Subscribe(id, filters) => out := EncodeSubscribe(id, filters);
      case Unsubscribe(id, topics) => out := EncodeUnsubscribe(id, topics);
      case ConnAck(_, _) => out := EncodeAnswer(p);
      case SubAck(_, _) => out := EncodeAnswer(p);
      case _ => out := EncodeShort(p);
    }
  }

  method Encode(p: Packet) returns (out: Bytes)
    ensures out == Print(p)
    ensures WellFormed(p) && Fits(p) ==> forall rest :: Parse(out + rest) == Got(p, rest)
  {
    out := EncodePacket(p);
    hide Print, Parse, WellFormed, Fits;
    forall rest | WellFormed(p) && Fits(p)
      ensures Parse(out + rest) == Got(p, rest)
    {
      PrintThenParse(p, rest);
    }
  }

  /** Bytes received and not yet decoded. */
  class Inbound {
    var buf: Bytes

    constructor ()
      ensures buf == []
    {
      buf := [];
    }

    /** `decode_one`: takes one packet off the front, or leaves the buffer alone. */
    method DecodeOne() returns (r: Parsed)
      modifies this
      ensures r == Parse(old(buf))
      ensures r.Got? ==> buf == r.rest && |buf| < |old(buf)|
      ensures r.NeedMore? ==> buf == old(buf) && |buf| <= MAX_PACKET_SIZE + 4
    {
      hide ParsePayload;
      if buf == [] {
        return NeedMore;
      }
      var first := buf[0];
      var len := DecodeRemainingLength(buf[1..]);
      if len.BadLength? {
        return Bad(Malformed);
      }
      if len.Incomplete? {
        return NeedMore;
      }
      if len.value > MAX_PACKET_SIZE {
        return Bad(TooLarge);
      }
      var header := len.used + 1;
      var total := header + len.value;
      if |buf| < total {
        return NeedMore;
      }
      var payload, rest := buf[header..total], buf[total..];
      buf := rest;
      var p := DecodePayload(first / 16, first % 16, payload);
      r := if p.Some? then Got(p.value, rest) else Bad(Malformed);
    }
  }
}
