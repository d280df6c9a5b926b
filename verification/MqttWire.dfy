/** The bytes of the packets, written out (section 3 of MQTT 3.1.1): what `Print` writes and what
    `Parse` reads, without the functions the two share. */
module MqttWire {
  import opened Wrappers
  import opened MqttSyntax

  /** Most significant byte first (section 1.5.2). */
  function Two(v: u16): Bytes { [v / 256, v % 256] }

  /** A field with its length in front (section 1.5.3). */
  function Prefixed(v: Bytes): Bytes
    requires |v| <= 65535
  {
    Two(|v|) + v
  }

  function PrefixedIf(v: Option<Bytes>): Bytes
    requires v.Some? ==> |v.value| <= 65535
  {
    if v.Some? then Prefixed(v.value) else []
  }

  lemma FieldLayout(v: Bytes)
    ensures |v| <= 65535 ==> PutField(v) == Prefixed(v)
    ensures |v| > 65535 ==> PutField(v) == [0xff, 0xff] + v[..65535]
  {
  }

  lemma Digit(d: nat, n: nat)
    requires d < 128 && n > 0
    ensures PutLength(d + 128 * n) == [d + 128] + PutLength(n)
  {
    assert (d + 128 * n) % 128 == d && (d + 128 * n) / 128 == n;
  }

  /** The remaining length has one to four digits of seven bits, the least significant first, with
      the high bit on all but the last (section 2.2.3). */
  lemma LengthLayout(a: nat, b: nat, c: nat, d: nat)
    requires a < 128 && b < 128 && c < 128 && d < 128
    ensures PutLength(a) == [a]
    ensures b > 0 ==> PutLength(a + 128 * b) == [a + 128, b]
    ensures c > 0 ==> PutLength(a + 128 * (b + 128 * c)) == [a + 128, b + 128, c]
    ensures d > 0 ==> PutLength(a + 128 * (b + 128 * (c + 128 * d))) == [a + 128, b + 128, c + 128, d]
  {
    assert PutLength(a) == [a] && PutLength(b) == [b] && PutLength(c) == [c] && PutLength(d) == [d];
    hide PutLength;
    if b > 0 { Digit(a, b); }
    if c > 0 { Digit(b, c); Digit(a, b + 128 * c); }
    if d > 0 { Digit(c, d); Digit(b, c + 128 * d); Digit(a, b + 128 * (c + 128 * d)); }
  }

  // ----- what is written -------------------------------------------------------------------

  /** The packets that are an identifier or nothing, and CONNACK. */
  lemma ShortLayout(id: u16, present: bool, code: byte)
    ensures Print(ConnAck(present, code)) == [0x20, 0x02, if present then 1 else 0, code]
    ensures Print(PubAck(id)) == [0x40, 0x02] + Two(id)
    ensures Print(PubRec(id)) == [0x50, 0x02] + Two(id)
    ensures Print(PubRel(id)) == [0x62, 0x02] + Two(id)
    ensures Print(PubComp(id)) == [0x70, 0x02] + Two(id)
    ensures Print(UnsubAck(id)) == [0xb0, 0x02] + Two(id)
    ensures Print(PingReq) == [0xc0, 0x00]
    ensures Print(PingResp) == [0xd0, 0x00]
    ensures Print(Disconnect) == [0xe0, 0x00]
  {
    LengthLayout(0, 0, 0, 0);
    LengthLayout(2, 0, 0, 0);
    hide PutLength;
  }

  /** The whole packet: first byte, length of the rest, the rest. */
  predicate Written(p: Packet, first: byte, rest: Bytes) {
    Print(p) == [first] + PutLength(|rest|) + rest
  }

  /** "MQTT" and level 4, or "MQIsdp" and level 3. */
  function Header(level: byte): Bytes {
    if level == 3 then [0, 6, 0x4d, 0x51, 0x49, 0x73, 0x64, 0x70, 3] else [0, 4, 0x4d, 0x51, 0x54, 0x54, 4]
  }

  /** Keep alive, client id, username and password. */
  function Tail(p: Packet): Bytes
    requires p.Connect? && WellFormed(p)
  {
    Two(p.keepAlive) + (Prefixed(p.clientId) + (PrefixedIf(p.username) + PrefixedIf(p.password)))
  }

  lemma TailLayout(p: Packet)
    requires p.Connect? && WellFormed(p)
    ensures ConnectTail(p) == Tail(p)
  {
    FieldLayout(p.clientId);
    if p.username.Some? { FieldLayout(p.username.value); }
    if p.password.Some? { FieldLayout(p.password.value); }
    BigEndian(p.keepAlive);
    hide PutField, Prefixed, Two, PutU16, ValidUtf8;
  }

  /** Username 0x80, password 0x40, clean session 0x02. */
  function Flags(p: Packet): byte
    requires p.Connect?
  {
    (if p.username.Some? then 0x80 else 0) + (if p.password.Some? then 0x40 else 0)
    + (if p.cleanSession then 0x02 else 0)
  }

  lemma ConnectBodyLayout(p: Packet)
    requires p.Connect? && WellFormed(p)
    ensures ConnectBody(p) == Header(p.protocolLevel) + ([Flags(p)] + Tail(p))
  {
    HeaderLayout(p.protocolLevel);
    TailLayout(p);
    assert Flags(p) == ConnectFlags(p);
    hide PutField, Header, ProtocolName, ConnectTail, Tail, WellFormed, ConnectFlags, Flags;
    Regroup(PutField(ProtocolName(p.protocolLevel)), [if p.protocolLevel == 3 then 3 else 4], [Flags(p)] + Tail(p));
  }

  lemma ConnectLayout(p: Packet)
    requires p.Connect? && WellFormed(p)
    ensures Written(p, 0x10, Header(p.protocolLevel) + ([Flags(p)] + Tail(p)))
  {
    ConnectBodyLayout(p);
    hide PutLength, Header, ConnectBody, Tail, WellFormed, Flags;
    assert Body(p) == ConnectBody(p);
  }

  lemma Regroup(a: Bytes, b: Bytes, c: Bytes)
    ensures a + b + c == a + (b + c)
  {
  }

  lemma BigEndian(v: u16)
    ensures PutU16(v) == Two(v)
  {
  }

  lemma HeaderLayout(level: byte)
    ensures PutField(ProtocolName(level)) + [if level == 3 then 3 else 4] == Header(level)
  {
  }

  /** Duplicate 0x08, quality of service in bits one and two, retain 0x01; the identifier stands
      between topic and payload unless the quality of service is zero. */
  lemma PublishLayout(p: Packet)
    requires p.Publish? && WellFormed(p)
    ensures Written(p, 0x30 + (if p.dup then 0x08 else 0) + 2 * p.qos + (if p.retain then 0x01 else 0),
                    Prefixed(p.topic) + ((if p.qos == 0 then [] else Two(p.messageId.value)) + p.payload))
  {
    FieldLayout(p.topic);
    if p.qos > 0 { BigEndian(p.messageId.value); }
    hide PutField, PutLength, Prefixed, PutU16, Two, ValidUtf8;
    assert Body(p) == PublishBody(p);
  }

  /** Each filter is its topic and its quality of service. */
  function Filters(filters: seq<SubscribeFilter>): Bytes
    requires forall i :: 0 <= i < |filters| ==> |filters[i].topic| <= 65535
  {
    if filters == [] then []
    else
      var last := filters[|filters| - 1];
      Filters(filters[..|filters| - 1]) + Prefixed(last.topic) + [last.qos]
  }

  function Topics(topics: seq<Bytes>): Bytes
    requires forall i :: 0 <= i < |topics| ==> |topics[i]| <= 65535
  {
    if topics == [] then [] else Topics(topics[..|topics| - 1]) + Prefixed(topics[|topics| - 1])
  }

  lemma {:induction false} PutFiltersAppend(init: seq<SubscribeFilter>, f: SubscribeFilter)
    requires |f.topic| <= 65535 && f.qos <= 2
    ensures PutFilters(init + [f]) == PutFilters(init) + Prefixed(f.topic) + [f.qos]
  {
    hide Prefixed, PutField;
    if init == [] {
      FieldLayout(f.topic);
      assert init + [f] == [f] && [f][1..] == [];
      assert PutFilters([f]) == PutField(f.topic) + [f.qos] + [];
    } else {
      PutFiltersAppend(init[1..], f);
      assert (init + [f])[1..] == init[1..] + [f];
    }
  }

  lemma {:induction false} FiltersLayout(filters: seq<SubscribeFilter>)
    requires forall i :: 0 <= i < |filters| ==> |filters[i].topic| <= 65535 && filters[i].qos <= 2
    ensures PutFilters(filters) == Filters(filters)
  {
    if filters != [] {
      var init, last := filters[..|filters| - 1], filters[|filters| - 1];
      assert filters == init + [last];
      FiltersLayout(init);
      PutFiltersAppend(init, last);
      hide PutFilters;
    }
  }

  lemma {:induction false} PutTopicsAppend(init: seq<Bytes>, topic: Bytes)
    requires |topic| <= 65535
    ensures PutTopics(init + [topic]) == PutTopics(init) + Prefixed(topic)
  {
    hide Prefixed, PutField;
    if init == [] {
      FieldLayout(topic);
      assert init + [topic] == [topic] && [topic][1..] == [];
      assert PutTopics([topic]) == PutField(topic) + [];
    } else {
      PutTopicsAppend(init[1..], topic);
      assert (init + [topic])[1..] == init[1..] + [topic];
    }
  }

  lemma {:induction false} TopicsLayout(topics: seq<Bytes>)
    requires forall i :: 0 <= i < |topics| ==> |topics[i]| <= 65535
    ensures PutTopics(topics) == Topics(topics)
  {
    if topics != [] {
      var init, last := topics[..|topics| - 1], topics[|topics| - 1];
      assert topics == init + [last];
      TopicsLayout(init);
      PutTopicsAppend(init, last);
      hide PutTopics;
    }
  }

  lemma ListLayout(p: Packet)
    requires WellFormed(p) && (p.Subscribe? || p.Unsubscribe? || p.SubAck?)
    ensures p.Subscribe? ==> Written(p, 0x82, Two(p.packetId) + Filters(p.filters))
    ensures p.Unsubscribe? ==> Written(p, 0xa2, Two(p.packetId) + Topics(p.topics))
    ensures p.SubAck? ==> Written(p, 0x90, Two(p.packetId) + p.codes)
  {
    hide PutFilters, PutTopics, PutLength, Filters, Topics;
    match p {
      case Subscribe(_, filters) => FiltersLayout(filters);
      case Unsubscribe(_, topics) => TopicsLayout(topics);
      case _ =>
    }
  }

  lemma SameBytes(p: Packet, q: Packet)
    requires PacketType(p) == PacketType(q) && PacketFlags(p) == PacketFlags(q) && Body(p) == Body(q)
    ensures Print(p) == Print(q)
  {
    hide PacketType, PacketFlags, Body, PutLength;
  }

  /** What is written for packets that have no form of their own: a protocol level other than three
      as four, a quality of service above two as two, and identifier one where none was given. */
  lemma WrittenAs(p: Packet)
    ensures p.Connect? && p.protocolLevel != 3 ==> Print(p) == Print(p.(protocolLevel := 4))
    ensures p.Publish? && p.qos > 2 ==> Print(p) == Print(p.(qos := 2))
    ensures p.Publish? && p.qos > 0 && p.messageId.None? ==> Print(p) == Print(p.(messageId := Some(1)))
  {
    hide PutField, PutU16, Print;
    if p.Connect? && p.protocolLevel != 3 { SameBytes(p, p.(protocolLevel := 4)); }
    if p.Publish? && p.qos > 2 { SameBytes(p, p.(qos := 2)); }
    if p.Publish? && p.qos > 0 && p.messageId.None? { SameBytes(p, p.(messageId := Some(1))); }
  }

  lemma FilterWrittenAs(id: u16, topic: Bytes, qos: byte, rest: seq<SubscribeFilter>)
    requires qos > 2
    ensures Print(Subscribe(id, [SubscribeFilter(topic, qos)] + rest))
         == Print(Subscribe(id, [SubscribeFilter(topic, 2)] + rest))
  {
    hide PutField, PutU16, PutLength;
    var a, b := [SubscribeFilter(topic, qos)] + rest, [SubscribeFilter(topic, 2)] + rest;
    assert a[1..] == rest && b[1..] == rest;
  }

  // ----- what is read ----------------------------------------------------------------------

  /** Flags are looked at only where the standard gives them a meaning: an identifier is two bytes,
      most significant first, and PUBREL alone must have flags 2. */
  lemma ShortReads(flags: byte, a: byte, b: byte)
    requires flags < 16
    ensures ParsePayload(2, flags, [a, b]) == Some(ConnAck(a % 2 == 1, b))
    ensures ParsePayload(4, flags, [a, b]) == Some(PubAck(256 * a + b))
    ensures ParsePayload(5, flags, [a, b]) == Some(PubRec(256 * a + b))
    ensures ParsePayload(6, flags, [a, b]) == if flags == 2 then Some(PubRel(256 * a + b)) else None
    ensures ParsePayload(7, flags, [a, b]) == Some(PubComp(256 * a + b))
    ensures ParsePayload(11, flags, [a, b]) == Some(UnsubAck(256 * a + b))
    ensures ParsePayload(12, flags, []) == Some(PingReq)
    ensures ParsePayload(13, flags, []) == Some(PingResp)
    ensures ParsePayload(14, flags, []) == Some(Disconnect)
  {
  }

  /** What is refused for its type, its flags or its length. */
  lemma Refusals(packetType: byte, flags: byte, payload: Bytes)
    requires flags < 16
    ensures ParsePayload(packetType, flags, payload).Some? ==>
      && 1 <= packetType <= 14
      && (packetType == 1 ==> flags == 0)
      && (packetType == 3 ==> flags / 2 % 4 != 3)
      && (packetType in {6, 8, 10} ==> flags == 2)
      && (packetType in {2, 4, 5, 6, 7, 11} ==> |payload| == 2)
      && (packetType in {8, 9, 10} ==> |payload| >= 2)
      && (packetType in {12, 13, 14} ==> payload == [])
  {
  }

  function Wills(will: Option<(Bytes, Bytes)>): Bytes
    requires will.Some? ==> |will.value.0| <= 65535 && |will.value.1| <= 65535
  {
    if will.Some? then Prefixed(will.value.0) + Prefixed(will.value.1) else []
  }

  /** The flags say what there is; bits 0x08 to 0x20 mean nothing. */
  predicate Announces(flags: byte, p: Packet, will: Option<(Bytes, Bytes)>)
    requires p.Connect?
  {
    && flags % 2 == 0 && (flags / 2 % 2 == 1 <==> p.cleanSession) && (flags / 4 % 2 == 1 <==> will.Some?)
    && (flags / 64 % 2 == 1 <==> p.password.Some?) && (flags / 128 == 1 <==> p.username.Some?)
  }

  lemma CredentialsRead(p: Packet, flags: byte, will: Option<(Bytes, Bytes)>, behind: Bytes)
    requires p.Connect? && WellFormed(p) && Announces(flags, p, will)
    ensures TakeCredentials(flags, PrefixedIf(p.username) + (PrefixedIf(p.password) + behind))
            == Field((p.username, p.password), behind)
  {
    assert FlagSet(flags, 0x80) == p.username.Some? && FlagSet(flags, 0x40) == p.password.Some?;
    OptionalReads(p.username, true, PrefixedIf(p.password) + behind);
    OptionalReads(p.password, false, behind);
    hide TakeOptional, PrefixedIf, FlagSet, WellFormed, Announces;
  }

  /** What follows the flags, and whatever comes behind it. */
  function Rest(p: Packet, will: Option<(Bytes, Bytes)>, behind: Bytes): Bytes
    requires p.Connect? && WellFormed(p)
    requires will.Some? ==> LegalText(will.value.0) && |will.value.1| <= 65535
  {
    Two(p.keepAlive)
    + (Prefixed(p.clientId) + (Wills(will) + (PrefixedIf(p.username) + (PrefixedIf(p.password) + behind))))
  }

  lemma TailReads(p: Packet, flags: byte, will: Option<(Bytes, Bytes)>, behind: Bytes)
    requires p.Connect? && WellFormed(p) && Announces(flags, p, will)
    requires will.Some? ==> LegalText(will.value.0) && |will.value.1| <= 65535
    ensures TakeConnectTail(p.protocolLevel, flags, Rest(p, will, behind)) == Field(p, behind)
  {
    var r7 := PrefixedIf(p.username) + (PrefixedIf(p.password) + behind);
    var r5 := Wills(will) + r7;
    var r4 := Prefixed(p.clientId) + r5;
    CredentialsRead(p, flags, will, behind);
    WillReads(will, r7);
    FieldLayout(p.clientId);
    StringRoundTrip(p.clientId, r5);
    BigEndian(p.keepAlive);
    U16RoundTrip(p.keepAlive, r4);
    hide TakeString, TakeU16, TakeCredentials, SkipWill, Prefixed, PrefixedIf, Two, Wills, WellFormed, PutField, PutU16;
  }

  lemma FlagsFirst(level: byte, flags: byte, tail: Bytes)
    requires (level == 3 || level == 4) && flags % 2 == 0
    ensures ParseConnect(Header(level) + ([flags] + tail)) == TakeConnectTail(level, flags, tail)
  {
    ProtocolReads(level, [flags] + tail);
    hide TakeConnectTail, TakeProtocol, Header;
    assert ([flags] + tail)[1..] == tail;
  }

  /** A CONNECT is read from its header and flags on: the will is passed over, and so is whatever
      comes behind the credentials. */
  lemma ConnectReads(p: Packet, flags: byte, will: Option<(Bytes, Bytes)>, behind: Bytes)
    requires p.Connect? && WellFormed(p) && Announces(flags, p, will)
    requires will.Some? ==> LegalText(will.value.0) && |will.value.1| <= 65535
    ensures ParsePayload(1, 0, Header(p.protocolLevel) + ([flags] + Rest(p, will, behind))) == Some(p)
  {
    TailReads(p, flags, will, behind);
    FlagsFirst(p.protocolLevel, flags, Rest(p, will, behind));
    hide TakeConnectTail, ParseConnect, Header, Rest;
  }

  lemma OptionalReads(v: Option<Bytes>, text: bool, rest: Bytes)
    requires v.Some? ==> |v.value| <= 65535 && (text ==> ValidUtf8(v.value))
    ensures TakeOptional(v.Some?, text, PrefixedIf(v) + rest) == Field(v, rest)
  {
    if v.Some? {
      FieldLayout(v.value);
      FieldRoundTrip(v.value, rest);
    } else {
      assert PrefixedIf(v) + rest == rest;
    }
  }

  lemma WillReads(will: Option<(Bytes, Bytes)>, rest: Bytes)
    requires will.Some? ==> LegalText(will.value.0) && |will.value.1| <= 65535
    ensures var f := SkipWill(will.Some?, Wills(will) + rest); f.Field? && f.rest == rest
  {
    if will.Some? {
      var (topic, message) := will.value;
      OptionalReads(Some(topic), true, Prefixed(message) + rest);
      OptionalReads(Some(message), false, rest);
      hide TakeOptional, Prefixed, ValidUtf8;
      assert Prefixed(topic) + Prefixed(message) + rest == Prefixed(topic) + (Prefixed(message) + rest);
    } else {
      assert [] + rest == rest;
    }
  }

  lemma ProtocolReads(level: byte, rest: Bytes)
    requires level == 3 || level == 4
    ensures TakeProtocol(Header(level) + rest) == Field(level, rest)
  {
    HeaderLayout(level);
    ProtocolRoundTrip(level, rest);
    hide TakeProtocol, PutField, Header, ProtocolName;
    Regroup(PutField(ProtocolName(level)), [level], rest);
  }

  lemma NameFirst(payload: Bytes, name: Bytes)
    requires TakeString(payload).Field? && TakeString(payload).value == name && |name| <= 65535
    ensures |name| + 2 <= |payload| && payload[..2 + |name|] == Two(|name|) + name
    ensures TakeString(payload).rest == payload[2 + |name|..]
  {
    hide ValidUtf8;
    var n := |name|;
    assert payload[2..][..n] == payload[2..2 + n] && payload[2..][n..] == payload[2 + n..];
    assert payload[..2 + n] == payload[..2] + payload[2..2 + n];
  }

  lemma NameAndLevel(payload: Bytes)
    requires TakeProtocol(payload).Field?
    ensures TakeString(payload).Field? && |TakeString(payload).value| <= 6
    ensures var f, name := TakeProtocol(payload), TakeString(payload);
      && (f.value == 3 || f.value == 4) && name.rest == [f.value] + f.rest
      && Header(f.value) == Two(|name.value|) + name.value + [f.value]
  {
    hide TakeString;
    var f, name := TakeProtocol(payload), TakeString(payload);
    assert name.value == if f.value == 3 then PROTOCOL_31 else PROTOCOL_311;
  }

  lemma ProtocolFirst(payload: Bytes)
    requires TakeProtocol(payload).Field?
    ensures var f := TakeProtocol(payload);
      (f.value == 3 || f.value == 4) && payload == Header(f.value) + f.rest
  {
    hide TakeString, TakeProtocol, Header, Two;
    NameAndLevel(payload);
    var f, name := TakeProtocol(payload), TakeString(payload);
    NameFirst(payload, name.value);
    assert payload == payload[..2 + |name.value|] + payload[2 + |name.value|..];
    Regroup(Two(|name.value|) + name.value, [f.value], f.rest);
  }

  /** No other protocol name or level is let in, and none with the reserved flag set. */
  lemma ConnectHeaders(payload: Bytes)
    requires ParsePayload(1, 0, payload).Some?
    ensures exists level, rest ::
      (level == 3 || level == 4) && payload == Header(level) + rest && rest != [] && rest[0] % 2 == 0
  {
    ProtocolFirst(payload);
    hide TakeProtocol, TakeConnectTail, Header;
    var f := TakeProtocol(payload);
    assert payload == Header(f.value) + f.rest && f.rest != [] && f.rest[0] % 2 == 0;
  }

  /** Client id, will topic and username must be UTF-8. */
  lemma TextRefused(level: byte, flags: byte, keepAlive: u16, text: Bytes, rest: Bytes)
    requires (level == 3 || level == 4) && |text| <= 65535 && !ValidUtf8(text)
    ensures ParsePayload(1, 0, Header(level) + ([flags] + (Two(keepAlive) + (Prefixed(text) + rest)))) == None
  {
    FieldLayout(text);
    FieldRoundTrip(text, rest);
    BigEndian(keepAlive);
    U16RoundTrip(keepAlive, Prefixed(text) + rest);
    hide TakeField, TakeU16, Prefixed, PutField, Two, PutU16, ValidUtf8;
    var tail := Two(keepAlive) + (Prefixed(text) + rest);
    assert TakeConnectTail(level, flags, tail) == Truncated;
    if flags % 2 == 0 { FlagsFirst(level, flags, tail); } else { ReservedRefused(level, flags, tail); }
    hide TakeConnectTail, ParseConnect, Header;
  }

  lemma ReservedRefused(level: byte, flags: byte, tail: Bytes)
    requires (level == 3 || level == 4) && flags % 2 == 1
    ensures ParseConnect(Header(level) + ([flags] + tail)) == Truncated
  {
    ProtocolReads(level, [flags] + tail);
    hide TakeConnectTail, TakeProtocol, Header;
  }

  lemma WillOrNameRefused(p: Packet, flags: byte, will: Option<(Bytes, Bytes)>, text: Bytes, rest: Bytes)
    requires p.Connect? && LegalText(p.clientId) && flags % 2 == 0 && |text| <= 65535 && !ValidUtf8(text)
    requires p.protocolLevel == 3 || p.protocolLevel == 4
    requires will.Some? ==> LegalText(will.value.0) && |will.value.1| <= 65535
    requires if will.Some? then flags / 4 % 2 == 1 && flags / 128 == 1 else flags / 4 % 2 == 1 || flags / 128 == 1
    ensures ParsePayload(1, 0, Header(p.protocolLevel)
                               + ([flags] + (Two(p.keepAlive) + (Prefixed(p.clientId)
                                             + (Wills(will) + (Prefixed(text) + rest)))))) == None
  {
    var r6 := Prefixed(text) + rest;
    var r5 := Wills(will) + r6;
    var tail := Two(p.keepAlive) + (Prefixed(p.clientId) + r5);
    WillAndNameBits(flags);
    hide FlagSet;
    TextStops(flags, will, text, rest);
    FieldLayout(p.clientId);
    StringRoundTrip(p.clientId, r5);
    BigEndian(p.keepAlive);
    U16RoundTrip(p.keepAlive, Prefixed(p.clientId) + r5);
    FlagsFirst(p.protocolLevel, flags, tail);
    hide TakeString, TakeU16, Prefixed, Two, Wills, PutField, PutU16, TakeCredentials, SkipWill, ParseConnect, Header;
    assert TakeConnectTail(p.protocolLevel, flags, tail) == Truncated;
  }

  lemma TextHere(text: Bytes, rest: Bytes)
    requires |text| <= 65535 && !ValidUtf8(text)
    ensures TakeOptional(true, true, Prefixed(text) + rest) == Truncated
  {
    FieldLayout(text);
    FieldRoundTrip(text, rest);
    hide TakeField, Prefixed, ValidUtf8;
  }

  lemma NameStops(flags: byte, text: Bytes, rest: Bytes)
    requires |text| <= 65535 && !ValidUtf8(text) && FlagSet(flags, 0x80)
    ensures TakeCredentials(flags, Prefixed(text) + rest) == Truncated
  {
    hide FlagSet, Prefixed, ValidUtf8, TakeOptional;
    TextHere(text, rest);
  }

  lemma WillStops(text: Bytes, rest: Bytes)
    requires |text| <= 65535 && !ValidUtf8(text)
    ensures SkipWill(true, Prefixed(text) + rest) == Truncated
  {
    TextHere(text, rest);
    hide Prefixed, ValidUtf8, TakeOptional;
  }

  lemma WillAndNameBits(flags: byte)
    ensures FlagSet(flags, 0x04) == (flags / 4 % 2 == 1) && FlagSet(flags, 0x80) == (flags / 128 == 1)
  {
  }

  /** The text stands where the will topic would, or, behind the will, where the username would. */
  lemma TextStops(flags: byte, will: Option<(Bytes, Bytes)>, text: Bytes, rest: Bytes)
    requires |text| <= 65535 && !ValidUtf8(text)
    requires will.Some? ==> LegalText(will.value.0) && |will.value.1| <= 65535
    requires will.Some? ==> FlagSet(flags, 0x04) && FlagSet(flags, 0x80)
    requires will.None? ==> FlagSet(flags, 0x04) || FlagSet(flags, 0x80)
    ensures var f := SkipWill(FlagSet(flags, 0x04), Wills(will) + (Prefixed(text) + rest));
      f.Truncated? || TakeCredentials(flags, f.rest).Truncated?
  {
    var r6 := Prefixed(text) + rest;
    hide FlagSet, Prefixed, ValidUtf8, TakeCredentials;
    if will.Some? {
      hide SkipWill;
      WillReads(will, r6);
      NameStops(flags, text, rest);
    } else {
      assert Wills(will) + r6 == r6;
      if FlagSet(flags, 0x04) { WillStops(text, rest); } else { NameStops(flags, text, rest); }
    }
  }

  // ----- frames ----------------------------------------------------------------------------

  /** A packet longer than a mebibyte is refused as soon as its length is known; any other is waited
      for until its last byte is there. */
  lemma FrameVerdict(first: byte, n: nat, rest: Bytes)
    requires n < 268435456
    ensures var buf := [first] + PutLength(n) + rest;
      && (1048576 < n ==> Parse(buf) == Bad(TooLarge))
      && (n <= 1048576 && |rest| < n ==> Parse(buf) == NeedMore)
      && (n <= 1048576 && n <= |rest| ==>
            Parse(buf) == match ParsePayload(first / 16, first % 16, rest[..n])
                          case None => Bad(Malformed)
                          case Some(p) => Got(p, rest[n..]))
  {
    FrameAt(first, n, rest);
    hide TakeFrame, PutLength, ParsePayload;
  }

  lemma FrameAt(first: byte, n: nat, rest: Bytes)
    requires n < 268435456
    ensures TakeFrame([first] + PutLength(n) + rest)
            == if 1048576 < n then Unframed(TooLarge)
               else if |rest| < n then Partial
               else Frame(first, rest[..n], rest[n..])
  {
    if n <= 1048576 && n <= |rest| {
      FrameRoundTrip(first, rest[..n], rest[n..]);
      hide TakeFrame, PutLength;
      assert rest == rest[..n] + rest[n..];
      Regroup([first] + PutLength(n), rest[..n], rest[n..]);
    } else {
      FrameStart(first, n, rest);
    }
  }

  lemma FrameStart(first: byte, n: nat, rest: Bytes)
    requires n < 268435456 && (1048576 < n || |rest| < n)
    ensures TakeFrame([first] + PutLength(n) + rest) == if 1048576 < n then Unframed(TooLarge) else Partial
  {
    AllDigits();
    LengthRoundTrip(n, 0, rest);
    hide PutLength, TakeLength, Capacity;
    assert ([first] + PutLength(n) + rest)[1..] == PutLength(n) + rest;
  }

  lemma AllDigits()
    ensures Capacity(0) == 268435456
  {
    assert Capacity(4) == 1 && Capacity(3) == 128 && Capacity(2) == 16384 && Capacity(1) == 2097152;
  }

  /** Four digits that all go on, and one more byte, are no length. */
  lemma FiveDigits(first: byte, a: byte, b: byte, c: byte, d: byte, rest: Bytes)
    requires 128 <= a && 128 <= b && 128 <= c && 128 <= d
    ensures Parse([first, a, b, c, d]) == NeedMore
    ensures rest != [] ==> Parse([first, a, b, c, d] + rest) == Bad(Malformed)
  {
    DigitsGoOn(a, b, c, d, []);
    DigitsGoOn(a, b, c, d, rest);
    hide TakeLength;
    assert [a, b, c, d] + [] == [a, b, c, d] && [first, a, b, c, d][1..] == [a, b, c, d];
    assert ([first, a, b, c, d] + rest)[1..] == [a, b, c, d] + rest;
  }

  lemma DigitsGoOn(a: byte, b: byte, c: byte, d: byte, rest: Bytes)
    requires 128 <= a && 128 <= b && 128 <= c && 128 <= d
    ensures TakeLength([a, b, c, d] + rest, 0) == if rest == [] then Incomplete else BadLength
  {
    var s0 := [a, b, c, d] + rest;
    var s1, s2, s3 := [b, c, d] + rest, [c, d] + rest, [d] + rest;
    assert s0[1..] == s1 && s1[1..] == s2 && s2[1..] == s3 && s3[1..] == rest;
    assert TakeLength(rest, 4) == if rest == [] then Incomplete else BadLength;
    assert TakeLength(s3, 3) == TakeLength(rest, 4);
    assert TakeLength(s2, 2) == TakeLength(rest, 4);
    assert TakeLength(s1, 1) == TakeLength(rest, 4);
  }

  // ----- examples --------------------------------------------------------------------------

  /** Some packets in full (sections 3.1, 3.3, 3.8, 3.9 and 3.10). */
  lemma WireExamples()
    ensures Parse([0x10, 0x0d, 0x00, 0x04, 0x4d, 0x51, 0x54, 0x54, 0x04, 0x02, 0x00, 0x3c, 0x00, 0x01, 0x61])
            == Got(Connect(4, true, 60, [0x61], None, None), [])
    ensures Print(Publish(true, 1, false, [0x61], Some(10), [0x07]))
            == [0x3a, 0x06, 0x00, 0x01, 0x61, 0x00, 0x0a, 0x07]
    ensures Print(Subscribe(10, [SubscribeFilter([0x61], 1)]))
            == [0x82, 0x06, 0x00, 0x0a, 0x00, 0x01, 0x61, 0x01]
    ensures Print(SubAck(10, [0x01, 0x80])) == [0x90, 0x04, 0x00, 0x0a, 0x01, 0x80]
    ensures Print(Unsubscribe(10, [[0x61]])) == [0xa2, 0x05, 0x00, 0x0a, 0x00, 0x01, 0x61]
  {
    hide Print, Parse;
    ConnectExample();
    PublishExample();
    ListExamples();
  }

  const CONNECT := Connect(4, true, 60, [0x61], None, None)

  lemma ConnectExample()
    ensures Parse([0x10, 0x0d, 0x00, 0x04, 0x4d, 0x51, 0x54, 0x54, 0x04, 0x02, 0x00, 0x3c, 0x00, 0x01, 0x61])
            == Got(CONNECT, [])
  {
    ConnectBytes();
    var bytes := [0x10, 0x0d, 0x00, 0x04, 0x4d, 0x51, 0x54, 0x54, 0x04, 0x02, 0x00, 0x3c, 0x00, 0x01, 0x61];
    hide Print, Parse, WellFormed, Fits;
    PrintThenParse(CONNECT, []);
    assert bytes + [] == bytes;
  }

  lemma ConnectBytes()
    ensures WellFormed(CONNECT) && Fits(CONNECT)
    ensures Print(CONNECT)
            == [0x10, 0x0d, 0x00, 0x04, 0x4d, 0x51, 0x54, 0x54, 0x04, 0x02, 0x00, 0x3c, 0x00, 0x01, 0x61]
  {
    AsciiIsUtf8([0x61]);
    ConnectBodyLayout(CONNECT);
    ConnectLayout(CONNECT);
    LengthLayout(13, 0, 0, 0);
    hide Print, PutLength, ConnectBody;
    var rest := [0x00, 0x04, 0x4d, 0x51, 0x54, 0x54, 0x04, 0x02, 0x00, 0x3c, 0x00, 0x01, 0x61];
    assert Tail(CONNECT) == [0x00, 0x3c, 0x00, 0x01, 0x61];
    assert Header(4) + ([Flags(CONNECT)] + Tail(CONNECT)) == rest;
    assert Print(CONNECT) == [0x10] + [0x0d] + rest;
  }

  lemma PublishExample()
    ensures Print(Publish(true, 1, false, [0x61], Some(10), [0x07]))
            == [0x3a, 0x06, 0x00, 0x01, 0x61, 0x00, 0x0a, 0x07]
  {
    LengthLayout(6, 0, 0, 0);
    hide PutLength;
  }

  lemma ListExamples()
    ensures Print(Subscribe(10, [SubscribeFilter([0x61], 1)]))
            == [0x82, 0x06, 0x00, 0x0a, 0x00, 0x01, 0x61, 0x01]
    ensures Print(SubAck(10, [0x01, 0x80])) == [0x90, 0x04, 0x00, 0x0a, 0x01, 0x80]
    ensures Print(Unsubscribe(10, [[0x61]])) == [0xa2, 0x05, 0x00, 0x0a, 0x00, 0x01, 0x61]
  {
    LengthLayout(6, 0, 0, 0);
    LengthLayout(5, 0, 0, 0);
    LengthLayout(4, 0, 0, 0);
    hide PutLength;
  }
}
