/** The MQTT 3.1.1 wire syntax accepted and produced by src/mqtt/codec.rs, as functions on byte
    sequences: `Print` writes a packet and `Parse` takes one packet off the front of a buffer.
    MqttCodec holds the code that computes them with offsets and loops. */
module MqttSyntax {
  import opened Wrappers

  type byte = x: int | 0 <= x < 256
  type u16 = x: int | 0 <= x < 65536
  type Bytes = seq<byte>

  const MAX_PACKET_SIZE: nat := 1024 * 1024
  const MAX_FIELD: nat := 65535

  datatype SubscribeFilter = SubscribeFilter(topic: Bytes, qos: byte)

  datatype Packet =
    | Connect(protocolLevel: byte, cleanSession: bool, keepAlive: u16, clientId: Bytes,
              username: Option<Bytes>, password: Option<Bytes>)
    | ConnAck(sessionPresent: bool, code: byte)
    | Publish(dup: bool, qos: byte, retain: bool, topic: Bytes, messageId: Option<u16>,
              payload: Bytes)
    | PubAck(packetId: u16)
    | PubRec(packetId: u16)
    | PubRel(packetId: u16)
    | PubComp(packetId: u16)
    | Subscribe(packetId: u16, filters: seq<SubscribeFilter>)
    | SubAck(packetId: u16, codes: Bytes)
    | Unsubscribe(packetId: u16, topics: seq<Bytes>)
    | UnsubAck(packetId: u16)
    | PingReq
    | PingResp
    | Disconnect

  datatype CodecError = Malformed | TooLarge

  /** Outcome of pulling one packet from a buffer. */
  datatype Parsed = NeedMore | Got(packet: Packet, rest: Bytes) | Bad(error: CodecError)

  /** Outcome of pulling one frame: first byte, payload and what follows. */
  datatype Frame = Partial | Frame(first: byte, payload: Bytes, rest: Bytes) | Unframed(reason: CodecError)

  /** Outcome of reading one field from the front of a payload. */
  datatype Field<+T> = Field(value: T, rest: Bytes) | Truncated

  // ----- UTF-8 -----------------------------------------------------------------------------

  predicate Continues(b: byte) { 0x80 <= b <= 0xBF }

  /** Length of the well-formed character at the front, 0 if there is none. */
  function CharLength(s: Bytes): (n: nat)
    requires s != []
    ensures n <= |s|
  {
    var b := s[0];
    if b < 0x80 then 1
    else if 0xC2 <= b <= 0xDF then
      if |s| >= 2 && Continues(s[1]) then 2 else 0
    else if 0xE0 <= b <= 0xEF then
      if |s| >= 3 && Continues(s[1]) && Continues(s[2])
         && (b == 0xE0 ==> s[1] >= 0xA0) && (b == 0xED ==> s[1] <= 0x9F) then 3 else 0
    else if 0xF0 <= b <= 0xF4 then
      if |s| >= 4 && Continues(s[1]) && Continues(s[2]) && Continues(s[3])
         && (b == 0xF0 ==> s[1] >= 0x90) && (b == 0xF4 ==> s[1] <= 0x8F) then 4 else 0
    else 0
  }

  predicate ValidUtf8(s: Bytes) {
    s == [] || (CharLength(s) > 0 && ValidUtf8(s[CharLength(s)..]))
  }

  // "MQTT" and "MQIsdp"
  const PROTOCOL_311: Bytes := [77, 81, 84, 84]
  const PROTOCOL_31: Bytes := [77, 81, 73, 115, 100, 112]

  function ProtocolName(level: byte): Bytes {
    if level == 3 then PROTOCOL_31 else PROTOCOL_311
  }

  lemma {:induction false} AsciiIsUtf8(s: Bytes)
    requires forall i :: 0 <= i < |s| ==> s[i] < 0x80
    ensures ValidUtf8(s)
  {
    if s != [] { AsciiIsUtf8(s[1..]); }
  }

  // ----- fields ----------------------------------------------------------------------------

  function PutU16(v: u16): Bytes { [v / 256, v % 256] }

  /** A length-prefixed field; longer values are cut at the largest length. */
  function PutField(v: Bytes): Bytes {
    var n := if |v| <= MAX_FIELD then |v| else MAX_FIELD;
    PutU16(n) + v[..n]
  }

  function Word(high: byte, low: byte): u16 {
    var h: int := high;
    h * 256 + low
  }

  function TakeU8(data: Bytes): Field<byte> {
    if data == [] then Truncated else Field(data[0], data[1..])
  }

  function TakeU16(data: Bytes): Field<u16> {
    if |data| < 2 then Truncated else Field(Word(data[0], data[1]), data[2..])
  }

  function TakeField(data: Bytes): Field<Bytes> {
    match TakeU16(data)
    case Truncated => Truncated
    case Field(n, r) => if |r| < n then Truncated else Field(r[..n], r[n..])
  }

  function TakeString(data: Bytes): Field<Bytes> {
    match TakeField(data)
    case Truncated => Truncated
    case Field(v, r) => if ValidUtf8(v) then Field(v, r) else Truncated
  }

  lemma U16RoundTrip(v: u16, rest: Bytes)
    ensures TakeU16(PutU16(v) + rest) == Field(v, rest)
  {
    assert (PutU16(v) + rest)[2..] == rest;
  }

  lemma FieldRoundTrip(v: Bytes, rest: Bytes)
    requires |v| <= MAX_FIELD
    ensures TakeField(PutField(v) + rest) == Field(v, rest)
  {
    assert PutField(v) == PutU16(|v|) + v;
    assert PutField(v) + rest == PutU16(|v|) + (v + rest);
    U16RoundTrip(|v|, v + rest);
    assert (v + rest)[..|v|] == v && (v + rest)[|v|..] == rest;
  }

  lemma StringRoundTrip(v: Bytes, rest: Bytes)
    requires LegalText(v)
    ensures TakeString(PutField(v) + rest) == Field(v, rest)
  {
    FieldRoundTrip(v, rest);
  }

  /** What was read is a legal field, and it and its prefix are what was consumed. */
  lemma FieldAccounts(data: Bytes)
    ensures TakeField(data).Field? ==>
      var f := TakeField(data); |f.value| <= MAX_FIELD && |f.rest| + |f.value| + 2 == |data|
  {
  }

  // ----- remaining length (section 2.2.3) --------------------------------------------------

  datatype Length = Incomplete | Length(value: nat, used: nat) | BadLength

  function PutLength(n: nat): Bytes {
    if n < 128 then [n] else [n % 128 + 128] + PutLength(n / 128)
  }

  /** Reads base-128 digits, least significant first; `index` digits came before. */
  function TakeLength(data: Bytes, index: nat): (r: Length)
    ensures r.Length? ==> 1 <= r.used <= |data| && index + r.used <= 4
    ensures r.Incomplete? ==> index + |data| <= 4 || data == []
    decreases |data|
  {
    if data == [] then Incomplete
    else if index >= 4 then BadLength
    else if data[0] < 128 then Length(data[0], 1)
    else
      match TakeLength(data[1..], index + 1)
      case Length(v, used) => Length(data[0] % 128 + 128 * v, used + 1)
      case Incomplete => Incomplete
      case BadLength => BadLength
  }

  /** Largest value that still fits once `index` of the four digits are taken. */
  function Capacity(index: nat): nat
    requires index <= 4
    decreases 4 - index
  {
    if index == 4 then 1 else 128 * Capacity(index + 1)
  }

  lemma {:induction false} LengthRoundTrip(n: nat, index: nat, rest: Bytes)
    requires index < 4 && n < Capacity(index)
    ensures TakeLength(PutLength(n) + rest, index) == Length(n, |PutLength(n)|)
    decreases n
  {
    var data := PutLength(n) + rest;
    if n >= 128 {
      assert index < 3 by { assert Capacity(4) == 1 && Capacity(3) == 128; }
      LengthRoundTrip(n / 128, index + 1, rest);
      assert data[1..] == PutLength(n / 128) + rest;
    }
  }

  /** More bytes never change a length that was already decided. */
  lemma {:induction false} LengthStable(data: Bytes, more: Bytes, index: nat)
    requires !TakeLength(data, index).Incomplete?
    ensures TakeLength(data + more, index) == TakeLength(data, index)
    decreases |data|
  {
    if index < 4 && data[0] >= 128 {
      assert (data + more)[1..] == data[1..] + more;
      LengthStable(data[1..], more, index + 1);
    }
  }

  // ----- payloads (section 3) --------------------------------------------------------------

  /** The bit of this weight is set. */
  predicate FlagSet(flags: byte, weight: nat) {
    match weight
    case 0x01 => flags % 2 == 1
    case 0x02 => flags / 2 % 2 == 1
    case 0x04 => flags / 4 % 2 == 1
    case 0x08 => flags / 8 % 2 == 1
    case 0x40 => flags / 64 % 2 == 1
    case 0x80 => flags / 128 % 2 == 1
    case _ => false
  }

  function Bit(b: bool, weight: nat): nat { if b then weight else 0 }

  function ConnectFlags(p: Packet): byte
    requires p.Connect?
  {
    Bit(p.username.Some?, 0x80) + Bit(p.password.Some?, 0x40) + Bit(p.cleanSession, 0x02)
  }

  function PutOptional(v: Option<Bytes>): Bytes {
    if v.Some? then PutField(v.value) else []
  }

  function Min(a: nat, b: nat): nat { if a <= b then a else b }

  function PutFilters(filters: seq<SubscribeFilter>): Bytes {
    if filters == [] then []
    else PutField(filters[0].topic) + [Min(filters[0].qos, 2)] + PutFilters(filters[1..])
  }

  function PutTopics(topics: seq<Bytes>): Bytes {
    if topics == [] then [] else PutField(topics[0]) + PutTopics(topics[1..])
  }

  function PacketType(p: Packet): byte {
    match p
    case Connect(_, _, _, _, _, _) => 1
    case ConnAck(_, _) => 2
    case Publish(_, _, _, _, _, _) => 3
    case PubAck(_) => 4
    case PubRec(_) => 5
    case PubRel(_) => 6
    case PubComp(_) => 7
    case Subscribe(_, _) => 8
    case SubAck(_, _) => 9
    case Unsubscribe(_, _) => 10
    case UnsubAck(_) => 11
    case PingReq => 12
    case PingResp => 13
    case Disconnect => 14
  }

  function PacketFlags(p: Packet): (flags: byte)
    ensures flags < 16
  {
    match p
    case Publish(dup, qos, retain, _, _, _) => Bit(dup, 8) + 2 * Min(qos, 2) + Bit(retain, 1)
    case PubRel(_) => 2
    case Subscribe(_, _) => 2
    case Unsubscribe(_, _) => 2
    case _ => 0
  }

  function ConnectTail(p: Packet): Bytes
    requires p.Connect?
  {
    PutU16(p.keepAlive)
    + (PutField(p.clientId) + (PutOptional(p.username) + PutOptional(p.password)))
  }

  function ConnectBody(p: Packet): Bytes
    requires p.Connect?
  {
    PutField(ProtocolName(p.protocolLevel))
    + ([if p.protocolLevel == 3 then 3 else 4] + ([ConnectFlags(p)] + ConnectTail(p)))
  }

  function PublishBody(p: Packet): Bytes
    requires p.Publish?
  {
    PutField(p.topic)
    + ((if p.qos > 0 then PutU16(if p.messageId.Some? then p.messageId.value else 1) else [])
    + p.payload)
  }

  function Body(p: Packet): Bytes {
    match p
    case Connect(_, _, _, _, _, _) => ConnectBody(p)
    case ConnAck(present, code) => [Bit(present, 1), code]
    case Publish(_, _, _, _, _, _) => PublishBody(p)
    case PubAck(id) => PutU16(id)
    case PubRec(id) => PutU16(id)
    case PubRel(id) => PutU16(id)
    case PubComp(id) => PutU16(id)
    case Subscribe(id, filters) => PutU16(id) + PutFilters(filters)
    case SubAck(id, codes) => PutU16(id) + codes
    case Unsubscribe(id, topics) => PutU16(id) + PutTopics(topics)
    case UnsubAck(id) => PutU16(id)
    case PingReq => []
    case PingResp => []
    case Disconnect => []
  }

  function Print(p: Packet): Bytes {
    [PacketType(p) * 16 + PacketFlags(p)] + PutLength(|Body(p)|) + Body(p)
  }

  function TakeOptional(present: bool, text: bool, data: Bytes): Field<Option<Bytes>> {
    if !present then Field(None, data)
    else
      match if text then TakeString(data) else TakeField(data)
      case Truncated => Truncated
      case Field(v, r) => Field(Some(v), r)
  }

  /** Protocol name and level. */
  function TakeProtocol(data: Bytes): Field<byte> {
    match TakeString(data)
    case Truncated => Truncated
    case Field(name, r) =>
      if r == [] then Truncated
      else if (r[0] == 4 && name == PROTOCOL_311) || (r[0] == 3 && name == PROTOCOL_31)
      then Field(r[0], r[1..])
      else Truncated
  }

  /** The will topic and message are read and dropped. */
  function SkipWill(present: bool, data: Bytes): Field<Option<Bytes>> {
    match TakeOptional(present, true, data)
    case Truncated => Truncated
    case Field(_, r) => TakeOptional(present, false, r)
  }

  function TakeCredentials(flags: byte, data: Bytes): Field<(Option<Bytes>, Option<Bytes>)> {
    match TakeOptional(FlagSet(flags, 0x80), true, data)
    case Truncated => Truncated
    case Field(username, r) =>
      match TakeOptional(FlagSet(flags, 0x40), false, r)
      case Truncated => Truncated
      case Field(password, r') => Field((username, password), r')
  }

  /** Everything after the connect flags. */
  function TakeConnectTail(level: byte, flags: byte, data: Bytes): Field<Packet> {
    match TakeU16(data)
    case Truncated => Truncated
    case Field(keepAlive, r4) =>
      match TakeString(r4)
      case Truncated => Truncated
      case Field(clientId, r5) =>
        match SkipWill(FlagSet(flags, 0x04), r5)
        case Truncated => Truncated
        case Field(_, r7) =>
          match TakeCredentials(flags, r7)
          case Truncated => Truncated
          case Field(c, r9) =>
            Field(Connect(level, FlagSet(flags, 0x02), keepAlive, clientId, c.0, c.1), r9)
  }

  function ParseConnect(payload: Bytes): Field<Packet> {
    match TakeProtocol(payload)
    case Truncated => Truncated
    case Field(level, r) =>
      if r == [] || FlagSet(r[0], 0x01) then Truncated
      else TakeConnectTail(level, r[0], r[1..])
  }

  function ParsePublish(flags: byte, payload: Bytes): Field<Packet>
    requires flags < 16
  {
    var qos := flags / 2 % 4;
    if qos > 2 then Truncated
    else
      match TakeString(payload)
      case Truncated => Truncated
      case Field(topic, r1) =>
        if qos == 0
        then Field(Publish(FlagSet(flags, 8), qos, FlagSet(flags, 1), topic, None, r1), [])
        else
          match TakeU16(r1)
          case Truncated => Truncated
          case Field(id, r2) =>
            Field(Publish(FlagSet(flags, 8), qos, FlagSet(flags, 1), topic, Some(id), r2), [])
  }

  function TakeFilter(data: Bytes): Field<SubscribeFilter> {
    match TakeString(data)
    case Truncated => Truncated
    case Field(topic, r) =>
      if r == [] || r[0] > 2 then Truncated else Field(SubscribeFilter(topic, r[0]), r[1..])
  }

  function TakeFilters(data: Bytes): Option<seq<SubscribeFilter>>
    decreases |data|
  {
    if data == [] then Some([])
    else
      match TakeFilter(data)
      case Truncated => None
      case Field(f, r) =>
        match TakeFilters(r)
        case None => None
        case Some(tail) => Some([f] + tail)
  }

  function TakeTopics(data: Bytes): Option<seq<Bytes>>
    decreases |data|
  {
    if data == [] then Some([])
    else
      match TakeString(data)
      case Truncated => None
      case Field(topic, r) =>
        match TakeTopics(r)
        case None => None
        case Some(tail) => Some([topic] + tail)
  }

  function ParseSubscribe(payload: Bytes): Field<Packet> {
    match TakeU16(payload)
    case Truncated => Truncated
    case Field(id, r) =>
      match TakeFilters(r)
      case None => Truncated
      case Some(filters) => if filters == [] then Truncated else Field(Subscribe(id, filters), [])
  }

  function ParseUnsubscribe(payload: Bytes): Field<Packet> {
    match TakeU16(payload)
    case Truncated => Truncated
    case Field(id, r) =>
      match TakeTopics(r)
      case None => Truncated
      case Some(topics) => if topics == [] then Truncated else Field(Unsubscribe(id, topics), [])
  }

  function Accept(f: Field<Packet>): Option<Packet> {
    if f.Field? then Some(f.value) else None
  }

  function ParsePayload(packetType: byte, flags: byte, payload: Bytes): Option<Packet>
    requires flags < 16
  {
    match packetType
    case 1 => if flags != 0 then None else Accept(ParseConnect(payload))
    case 2 => if |payload| != 2 then None
              else Some(ConnAck(FlagSet(payload[0], 1), payload[1]))
    case 3 => Accept(ParsePublish(flags, payload))
    case 4 => if |payload| != 2 then None else Some(PubAck(Word(payload[0], payload[1])))
    case 5 => if |payload| != 2 then None else Some(PubRec(Word(payload[0], payload[1])))
    case 6 => if flags != 2 || |payload| != 2 then None else Some(PubRel(Word(payload[0], payload[1])))
    case 7 => if |payload| != 2 then None else Some(PubComp(Word(payload[0], payload[1])))
    case 8 => if flags != 2 then None else Accept(ParseSubscribe(payload))
    case 9 => if |payload| < 2 then None
              else Some(SubAck(Word(payload[0], payload[1]), payload[2..]))
    case 10 => if flags != 2 then None else Accept(ParseUnsubscribe(payload))
    case 11 => if |payload| != 2 then None else Some(UnsubAck(Word(payload[0], payload[1])))
    case 12 => if payload == [] then Some(PingReq) else None
    case 13 => if payload == [] then Some(PingResp) else None
    case 14 => if payload == [] then Some(Disconnect) else None
    case _ => None
  }

  /** The first frame of the buffer, if all of it is there. */
  function TakeFrame(buf: Bytes): Frame {
    if buf == [] then Partial
    else
      match TakeLength(buf[1..], 0)
      case Incomplete => Partial
      case BadLength => Unframed(Malformed)
      case Length(remaining, used) =>
        if remaining > MAX_PACKET_SIZE then Unframed(TooLarge)
        else if |buf| < 1 + used + remaining then Partial
        else
          var total := 1 + used + remaining;
          Frame(buf[0], buf[1 + used..total], buf[total..])
  }

  function ReadFrame(frame: Frame): Parsed {
    match frame
    case Partial => NeedMore
    case Unframed(e) => Bad(e)
    case Frame(first, payload, rest) =>
      match ParsePayload(first / 16, first % 16, payload)
      case None => Bad(Malformed)
      case Some(p) => Got(p, rest)
  }

  /** `decode_one`: the first packet of the buffer. */
  function Parse(buf: Bytes): Parsed {
    ReadFrame(TakeFrame(buf))
  }

  // ----- well-formed packets ---------------------------------------------------------------

  predicate LegalText(s: Bytes) { |s| <= MAX_FIELD && ValidUtf8(s) }

  /** What section 3 asks of each packet, as far as its fields can say. */
  predicate WellFormed(p: Packet) {
    match p
    case Connect(level, _, _, clientId, username, password) =>
      && (level == 3 || level == 4) && LegalText(clientId)
      && (username.Some? ==> LegalText(username.value))
      && (password.Some? ==> |password.value| <= MAX_FIELD)
    case Publish(_, qos, _, topic, id, _) => qos <= 2 && LegalText(topic) && (qos > 0 <==> id.Some?)
    case Subscribe(_, filters) =>
      && filters != []
      && forall i :: 0 <= i < |filters| ==> LegalText(filters[i].topic) && filters[i].qos <= 2
    case Unsubscribe(_, topics) =>
      topics != [] && forall i :: 0 <= i < |topics| ==> LegalText(topics[i])
    case _ => true
  }

  predicate Fits(p: Packet) { |Body(p)| <= MAX_PACKET_SIZE }

  // ----- printing then parsing -------------------------------------------------------------

  lemma FilterRoundTrip(f: SubscribeFilter, tail: Bytes)
    requires LegalText(f.topic) && f.qos <= 2
    ensures TakeFilter(PutField(f.topic) + [f.qos] + tail) == Field(f, tail)
  {
    assert PutField(f.topic) + [f.qos] + tail == PutField(f.topic) + ([f.qos] + tail);
    StringRoundTrip(f.topic, [f.qos] + tail);
    assert ([f.qos] + tail)[1..] == tail;
  }

  lemma {:induction false} FiltersRoundTrip(filters: seq<SubscribeFilter>)
    requires forall i :: 0 <= i < |filters| ==> LegalText(filters[i].topic) && filters[i].qos <= 2
    ensures TakeFilters(PutFilters(filters)) == Some(filters)
  {
    if filters != [] {
      FilterRoundTrip(filters[0], PutFilters(filters[1..]));
      FiltersRoundTrip(filters[1..]);
      assert filters == [filters[0]] + filters[1..];
    }
  }

  lemma TopicsStep(topic: Bytes, tail: Bytes)
    requires LegalText(topic) && TakeTopics(tail).Some?
    ensures TakeTopics(PutField(topic) + tail) == Some([topic] + TakeTopics(tail).value)
  {
    StringRoundTrip(topic, tail);
  }

  lemma {:induction false} TopicsRoundTrip(topics: seq<Bytes>)
    requires forall i :: 0 <= i < |topics| ==> LegalText(topics[i])
    ensures TakeTopics(PutTopics(topics)) == Some(topics)
  {
    if topics != [] {
      var tail := topics[1..];
      TopicsRoundTrip(tail);
      TopicsStep(topics[0], PutTopics(tail));
      assert topics == [topics[0]] + tail;
    }
  }

  lemma OptionalRoundTrip(v: Option<Bytes>, text: bool, rest: Bytes)
    requires v.Some? ==> |v.value| <= MAX_FIELD && (text ==> ValidUtf8(v.value))
    ensures TakeOptional(v.Some?, text, PutOptional(v) + rest) == Field(v, rest)
  {
    if v.Some? {
      FieldRoundTrip(v.value, rest);
      if text { StringRoundTrip(v.value, rest); }
    } else { assert [] + rest == rest; }
  }

  lemma ConnectFlagBits(p: Packet)
    requires p.Connect?
    ensures var f := ConnectFlags(p);
      && !FlagSet(f, 0x01) && !FlagSet(f, 0x04) && FlagSet(f, 0x02) == p.cleanSession
      && FlagSet(f, 0x80) == p.username.Some? && FlagSet(f, 0x40) == p.password.Some?
  {
  }

  lemma CredentialsRoundTrip(p: Packet)
    requires p.Connect? && WellFormed(p)
    ensures TakeCredentials(ConnectFlags(p), PutOptional(p.username) + PutOptional(p.password))
         == Field((p.username, p.password), [])
  {
    ConnectFlagBits(p);
    OptionalRoundTrip(p.username, true, PutOptional(p.password));
    OptionalRoundTrip(p.password, false, []);
    assert PutOptional(p.password) + [] == PutOptional(p.password);
  }

  lemma ConnectTailRoundTrip(p: Packet)
    requires p.Connect? && WellFormed(p)
    ensures TakeConnectTail(p.protocolLevel, ConnectFlags(p), ConnectTail(p)) == Field(p, [])
  {
    var t8 := PutOptional(p.username) + PutOptional(p.password);
    U16RoundTrip(p.keepAlive, PutField(p.clientId) + t8);
    StringRoundTrip(p.clientId, t8);
    ConnectFlagBits(p);
    CredentialsRoundTrip(p);
  }

  lemma ProtocolRoundTrip(level: byte, rest: Bytes)
    requires level == 3 || level == 4
    ensures TakeProtocol(PutField(ProtocolName(level)) + ([level] + rest)) == Field(level, rest)
  {
    AsciiIsUtf8(ProtocolName(level));
    StringRoundTrip(ProtocolName(level), [level] + rest);
    assert ([level] + rest)[1..] == rest;
  }

  lemma ConnectRoundTrip(p: Packet)
    requires p.Connect? && WellFormed(p)
    ensures ParseConnect(ConnectBody(p)) == Field(p, [])
  {
    var r := [ConnectFlags(p)] + ConnectTail(p);
    ProtocolRoundTrip(p.protocolLevel, r);
    assert r[1..] == ConnectTail(p);
    ConnectFlagBits(p);
    ConnectTailRoundTrip(p);
  }

  lemma PublishFlagBits(p: Packet)
    requires p.Publish? && p.qos <= 2
    ensures var f := PacketFlags(p);
      f / 2 % 4 == p.qos && FlagSet(f, 8) == p.dup && FlagSet(f, 1) == p.retain
  {
  }

  lemma PublishRoundTrip(p: Packet)
    requires p.Publish? && WellFormed(p)
    ensures ParsePublish(PacketFlags(p), PublishBody(p)) == Field(p, [])
  {
    PublishFlagBits(p);
    if p.qos > 0 {
      StringRoundTrip(p.topic, PutU16(p.messageId.value) + p.payload);
      U16RoundTrip(p.messageId.value, p.payload);
    } else {
      assert [] + p.payload == p.payload;
      StringRoundTrip(p.topic, p.payload);
    }
  }

  lemma SubscribeRoundTrip(p: Packet)
    requires p.Subscribe? && WellFormed(p)
    ensures ParseSubscribe(Body(p)) == Field(p, [])
  {
    U16RoundTrip(p.packetId, PutFilters(p.filters));
    FiltersRoundTrip(p.filters);
  }

  lemma UnsubscribeRoundTrip(p: Packet)
    requires p.Unsubscribe? && WellFormed(p)
    ensures ParseUnsubscribe(Body(p)) == Field(p, [])
  {
    U16RoundTrip(p.packetId, PutTopics(p.topics));
    TopicsRoundTrip(p.topics);
  }

  predicate IsAck(p: Packet) {
    p.PubAck? || p.PubRec? || p.PubRel? || p.PubComp? || p.UnsubAck?
  }

  lemma AckRoundTrip(p: Packet)
    requires IsAck(p)
    ensures ParsePayload(PacketType(p), PacketFlags(p), PutU16(p.packetId)) == Some(p)
  {
    var payload := PutU16(p.packetId);
    assert |payload| == 2 && Word(payload[0], payload[1]) == p.packetId;
  }

  lemma SubAckRoundTrip(p: Packet)
    requires p.SubAck?
    ensures ParsePayload(9, 0, PutU16(p.packetId) + p.codes) == Some(p)
  {
    U16RoundTrip(p.packetId, p.codes);
  }

  /** The payload of `p` is read back as `p`. */
  predicate ReadsBack(p: Packet) {
    ParsePayload(PacketType(p), PacketFlags(p), Body(p)) == Some(p)
  }

  lemma TextPayloads(p: Packet)
    requires WellFormed(p) && (p.Connect? || p.Publish?)
    ensures ReadsBack(p)
  {
    if p.Connect? { ConnectRoundTrip(p); } else { PublishRoundTrip(p); }
  }

  lemma ListPayloads(p: Packet)
    requires WellFormed(p) && (p.Subscribe? || p.Unsubscribe?)
    ensures ReadsBack(p)
  {
    hide WellFormed, ValidUtf8, PutFilters, PutTopics, ParseSubscribe, ParseUnsubscribe;
    if p.Subscribe? { SubscribeRoundTrip(p); } else { UnsubscribeRoundTrip(p); }
  }

  lemma ShortPayloads(p: Packet)
    requires IsAck(p) || p.SubAck? || p.ConnAck? || p.PingReq? || p.PingResp? || p.Disconnect?
    ensures ReadsBack(p)
  {
    if p.SubAck? { SubAckRoundTrip(p); } else if IsAck(p) { AckRoundTrip(p); }
  }

  lemma PayloadRoundTrip(p: Packet)
    requires WellFormed(p)
    ensures ReadsBack(p)
  {
    hide ReadsBack;
    if p.Connect? || p.Publish? { TextPayloads(p); }
    else if p.Subscribe? || p.Unsubscribe? { ListPayloads(p); }
    else { ShortPayloads(p); }
  }

  lemma LengthFits(n: nat, rest: Bytes)
    requires n <= MAX_PACKET_SIZE
    ensures TakeLength(PutLength(n) + rest, 0) == Length(n, |PutLength(n)|)
  {
    assert Capacity(0) == 0x1000_0000 by {
      assert Capacity(3) == 128 && Capacity(2) == 128 * 128 && Capacity(1) == 128 * 128 * 128;
    }
    LengthRoundTrip(n, 0, rest);
  }

  lemma FrameSlices(first: byte, len: Bytes, body: Bytes, rest: Bytes)
    requires |body| <= MAX_PACKET_SIZE
    requires TakeLength(len + (body + rest), 0) == Length(|body|, |len|)
    ensures TakeFrame([first] + len + body + rest) == Frame(first, body, rest)
  {
    var buf := [first] + len + body + rest;
    assert buf[1..] == len + (body + rest);
    assert buf[1 + |len|..1 + |len| + |body|] == body;
    assert buf[1 + |len| + |body|..] == rest;
  }

  /** Framing alone: first byte and body are found again. */
  lemma FrameRoundTrip(first: byte, body: Bytes, rest: Bytes)
    requires |body| <= MAX_PACKET_SIZE
    ensures TakeFrame([first] + PutLength(|body|) + body + rest) == Frame(first, body, rest)
  {
    LengthFits(|body|, body + rest);
    FrameSlices(first, PutLength(|body|), body, rest);
  }

  /** A well-formed packet that fits is read back unchanged and nothing behind it is touched. */
  lemma PrintThenParse(p: Packet, rest: Bytes)
    requires WellFormed(p) && Fits(p)
    ensures Parse(Print(p) + rest) == Got(p, rest)
  {
    var packetType, flags, body := PacketType(p), PacketFlags(p), Body(p);
    PayloadRoundTrip(p);
    var first: byte := packetType * 16 + flags;
    assert first / 16 == packetType && first % 16 == flags;
    hide WellFormed, TakeFrame, ParsePayload, PacketType, PacketFlags, Body, PutLength;
    FrameRoundTrip(first, body, rest);
  }

  // ----- parsing then printing -------------------------------------------------------------

  lemma FilterAccepted(data: Bytes)
    ensures TakeFilter(data).Field? ==>
      var f := TakeFilter(data);
      && LegalText(f.value.topic) && f.value.qos <= 2
      && |PutField(f.value.topic)| + 1 + |f.rest| == |data|
  {
    FieldAccounts(data);
  }

  lemma {:induction false} FiltersAccepted(data: Bytes)
    requires TakeFilters(data).Some?
    ensures var fs := TakeFilters(data).value;
      && (forall i :: 0 <= i < |fs| ==> LegalText(fs[i].topic) && fs[i].qos <= 2)
      && |PutFilters(fs)| == |data|
    decreases |data|
  {
    if data != [] {
      var f := TakeFilter(data);
      FilterAccepted(data);
      FiltersAccepted(f.rest);
      var fs := TakeFilters(data).value;
      assert fs[1..] == TakeFilters(f.rest).value;
    }
  }

  lemma {:induction false} TopicsAccepted(data: Bytes)
    requires TakeTopics(data).Some?
    ensures var ts := TakeTopics(data).value;
      && (forall i :: 0 <= i < |ts| ==> LegalText(ts[i]))
      && |PutTopics(ts)| == |data|
    decreases |data|
  {
    if data != [] {
      var f := TakeString(data);
      FieldAccounts(data);
      TopicsAccepted(f.rest);
      var ts := TakeTopics(data).value;
      assert ts[1..] == TakeTopics(f.rest).value;
    }
  }

  lemma OptionalAccepted(present: bool, text: bool, data: Bytes)
    ensures var f := TakeOptional(present, text, data);
      f.Field? ==>
        && |PutOptional(f.value)| + |f.rest| == |data|
        && (f.value.Some? ==> |f.value.value| <= MAX_FIELD && (text ==> ValidUtf8(f.value.value)))
  {
    if present { FieldAccounts(data); }
  }

  lemma WillAccepted(present: bool, data: Bytes)
    ensures SkipWill(present, data).Field? ==> |SkipWill(present, data).rest| <= |data|
  {
    OptionalAccepted(present, true, data);
    if TakeOptional(present, true, data).Field? {
      OptionalAccepted(present, false, TakeOptional(present, true, data).rest);
    }
  }

  lemma CredentialsAccepted(flags: byte, data: Bytes)
    ensures var f := TakeCredentials(flags, data);
      f.Field? ==>
        && (f.value.0.Some? ==> LegalText(f.value.0.value))
        && (f.value.1.Some? ==> |f.value.1.value| <= MAX_FIELD)
        && |PutOptional(f.value.0)| + |PutOptional(f.value.1)| <= |data|
  {
    OptionalAccepted(FlagSet(flags, 0x80), true, data);
    if TakeOptional(FlagSet(flags, 0x80), true, data).Field? {
      OptionalAccepted(FlagSet(flags, 0x40), false,
                       TakeOptional(FlagSet(flags, 0x80), true, data).rest);
    }
  }

  lemma ConnectTailAccepted(level: byte, flags: byte, data: Bytes)
    requires level == 3 || level == 4
    ensures var f := TakeConnectTail(level, flags, data);
      f.Field? ==>
        && f.value.Connect? && f.value.protocolLevel == level && WellFormed(f.value)
        && |ConnectTail(f.value)| <= |data|
  {
    if TakeConnectTail(level, flags, data).Field? {
      var r4 := TakeU16(data).rest;
      FieldAccounts(r4);
      var r5 := TakeString(r4).rest;
      WillAccepted(FlagSet(flags, 0x04), r5);
      CredentialsAccepted(flags, SkipWill(FlagSet(flags, 0x04), r5).rest);
    }
  }

  /** The will is dropped and bytes after the last field are ignored, so only `<=`. */
  lemma ConnectAccepted(payload: Bytes)
    requires ParseConnect(payload).Field?
    ensures var p := ParseConnect(payload).value;
      p.Connect? && WellFormed(p) && |ConnectBody(p)| <= |payload|
  {
    var f := TakeProtocol(payload);
    FieldAccounts(payload);
    ConnectTailAccepted(f.value, f.rest[0], f.rest[1..]);
  }

  lemma PublishAccepted(flags: byte, payload: Bytes)
    requires flags < 16
    ensures var f := ParsePublish(flags, payload);
      f.Field? ==> f.value.Publish? && WellFormed(f.value) && |PublishBody(f.value)| == |payload|
  {
    FieldAccounts(payload);
  }

  lemma PayloadAccepted(packetType: byte, flags: byte, payload: Bytes)
    requires flags < 16 && ParsePayload(packetType, flags, payload).Some?
    ensures var p := ParsePayload(packetType, flags, payload).value;
      WellFormed(p) && |Body(p)| <= |payload|
  {
    match packetType {
      case 1 => ConnectAccepted(payload);
      case 3 => PublishAccepted(flags, payload);
      case 8 => FiltersAccepted(TakeU16(payload).rest);
      case 10 => TopicsAccepted(TakeU16(payload).rest);
      case _ =>
    }
  }

  lemma FrameAccounts(buf: Bytes)
    ensures TakeFrame(buf).Frame? ==>
      |TakeFrame(buf).payload| <= MAX_PACKET_SIZE && |TakeFrame(buf).rest| < |buf|
  {
  }

  /** Whatever is accepted is well-formed and no larger than it came. */
  lemma FrameAccepted(frame: Frame)
    requires ReadFrame(frame).Got?
    ensures WellFormed(ReadFrame(frame).packet) && ReadFrame(frame).rest == frame.rest
    ensures |Body(ReadFrame(frame).packet)| <= |frame.payload|
  {
    PayloadAccepted(frame.first / 16, frame.first % 16, frame.payload);
  }

  lemma ParseAccepts(buf: Bytes)
    requires Parse(buf).Got?
    ensures WellFormed(Parse(buf).packet) && Fits(Parse(buf).packet)
    ensures |Parse(buf).rest| < |buf|
  {
    FrameAccounts(buf);
    FrameAccepted(TakeFrame(buf));
  }

  /** Printing survives a round trip exactly for the well-formed packets that fit. */
  lemma RoundTripExactly(p: Packet, rest: Bytes)
    ensures Parse(Print(p) + rest) == Got(p, rest) <==> WellFormed(p) && Fits(p)
  {
    if WellFormed(p) && Fits(p) { PrintThenParse(p, rest); }
    if Parse(Print(p) + rest) == Got(p, rest) { ParseAccepts(Print(p) + rest); }
  }

  /** Re-encoding an accepted packet and decoding it again returns the same packet. */
  lemma ParseThenPrint(buf: Bytes, rest: Bytes)
    requires Parse(buf).Got?
    ensures Parse(Print(Parse(buf).packet) + rest) == Got(Parse(buf).packet, rest)
  {
    ParseAccepts(buf);
    PrintThenParse(Parse(buf).packet, rest);
  }
}
