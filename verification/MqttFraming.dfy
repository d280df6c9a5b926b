/** The read loops of src/mqtt/session.rs: bytes arrive in arbitrary pieces and packets leave
    whole. What leaves depends on the byte stream alone, never on how it was cut into reads. */
module MqttFraming {
  import opened Wrappers
  import opened MqttSyntax
  import opened MqttCodec

  /** The packets of a whole stream, up to the first incomplete or malformed one. */
  ghost function Packets(stream: Bytes): seq<Packet>
    decreases |stream|
  {
    var r := Parse(stream);
    if r.Got? then
      ParseAccepts(stream);
      [r.packet] + Packets(r.rest)
    else []
  }

  // ----- later bytes never change an earlier verdict ---------------------------------------

  /** A frame, or a verdict, with more bytes behind it. */
  function Longer(frame: Frame, more: Bytes): Frame {
    if frame.Frame? then frame.(rest := frame.rest + more) else frame
  }

  function Extended(p: Parsed, more: Bytes): Parsed {
    if p.Got? then p.(rest := p.rest + more) else p
  }

  lemma {:induction false} FrameStable(buf: Bytes, more: Bytes)
    requires !TakeFrame(buf).Partial?
    ensures TakeFrame(buf + more) == Longer(TakeFrame(buf), more)
  {
    var all := buf + more;
    assert all[1..] == buf[1..] + more;
    LengthStable(buf[1..], more, 0);
    var len := TakeLength(buf[1..], 0);
    if len.Length? && len.value <= MAX_PACKET_SIZE {
      var total := 1 + len.used + len.value;
      assert all[1 + len.used..total] == buf[1 + len.used..total];
      assert all[total..] == buf[total..] + more;
    }
  }

  /** Once there is a packet or an error at the front, more bytes do not change it. */
  lemma {:induction false} ParseStable(buf: Bytes, more: Bytes)
    requires !TakeFrame(buf).Partial?
    ensures Parse(buf + more) == Extended(Parse(buf), more)
  {
    FrameStable(buf, more);
    hide ParsePayload, TakeFrame;
  }

  lemma {:induction false} PacketsStep(buf: Bytes, more: Bytes)
    ensures Parse(buf).Got? ==>
      Packets(buf + more) == [Parse(buf).packet] + Packets(Parse(buf).rest + more)
    ensures Parse(buf).Bad? ==> Packets(buf + more) == []
  {
    if !TakeFrame(buf).Partial? { ParseStable(buf, more); }
    hide ParsePayload, TakeFrame;
  }

  // ----- what was received -----------------------------------------------------------------

  /** The bytes of a TCP connection: a read of length zero is its end. */
  function Received(chunks: seq<Bytes>): Bytes {
    if chunks == [] || chunks[0] == [] then [] else chunks[0] + Received(chunks[1..])
  }

  datatype WsEvent = Binary(bytes: Bytes) | Text(bytes: Bytes) | Ping | Pong | Closed

  function ReceivedWs(events: seq<WsEvent>): Bytes {
    if events == [] || events[0].Closed? then []
    else (if events[0].Binary? || events[0].Text? then events[0].bytes else []) + ReceivedWs(events[1..])
  }

  function Concat(pieces: seq<Bytes>): Bytes {
    if pieces == [] then [] else pieces[0] + Concat(pieces[1..])
  }

  /** The data of the events, whatever lies between. */
  function Pieces(events: seq<WsEvent>): seq<Bytes> {
    if events == [] then []
    else
      var last := events[|events| - 1];
      Pieces(events[..|events| - 1]) + match last
                                       case Binary(bytes) => [bytes]
                                       case Text(bytes) => [bytes]
                                       case Ping => []
                                       case Pong => []
                                       case Closed => []
  }

  lemma {:induction false} ConcatAppend(a: seq<Bytes>, b: seq<Bytes>)
    ensures Concat(a + b) == Concat(a) + Concat(b)
  {
    if a == [] {
      assert a + b == b;
    } else {
      assert (a + b)[1..] == a[1..] + b;
      ConcatAppend(a[1..], b);
    }
  }

  /** What is received over TCP is every read up to the first of length zero, in order: two cuts of
      one stream are received as the same bytes. */
  lemma {:induction false} ReceivedWhole(chunks: seq<Bytes>, n: nat)
    requires n <= |chunks| && [] !in chunks[..n] && (n < |chunks| ==> chunks[n] == [])
    ensures Received(chunks) == Concat(chunks[..n])
  {
    if n > 0 {
      assert chunks[0] == chunks[..n][0];
      assert chunks[1..][..n - 1] == chunks[..n][1..];
      ReceivedWhole(chunks[1..], n - 1);
    } else {
      assert chunks[..n] == [];
    }
  }

  lemma {:induction false} PiecesFirst(e: WsEvent, events: seq<WsEvent>)
    ensures Pieces([e] + events) == Pieces([e]) + Pieces(events)
  {
    if events == [] {
      assert [e] + events == [e] && Pieces([e]) + [] == Pieces([e]);
    } else {
      var init, last := events[..|events| - 1], events[|events| - 1];
      PiecesFirst(e, init);
      var all := [e] + events;
      assert all[..|all| - 1] == [e] + init && all[|all| - 1] == last;
    }
  }

  /** What is received over a WebSocket is the data up to the closing event, binary and text alike;
      pings and pongs in between neither end it nor add to it. */
  lemma {:induction false} ReceivedWsWhole(events: seq<WsEvent>, n: nat)
    requires n <= |events| && Closed !in events[..n] && (n < |events| ==> events[n] == Closed)
    ensures ReceivedWs(events) == Concat(Pieces(events[..n]))
  {
    if n > 0 {
      var e, rest := events[0], events[1..];
      assert e == events[..n][0];
      assert rest[..n - 1] == events[..n][1..] && events[..n] == [e] + rest[..n - 1];
      ReceivedWsWhole(rest, n - 1);
      PiecesFirst(e, rest[..n - 1]);
      ConcatAppend(Pieces([e]), Pieces(rest[..n - 1]));
      OnePiece(e);
    } else {
      assert events[..n] == [];
    }
  }

  lemma OnePiece(e: WsEvent)
    ensures Concat(Pieces([e])) == if e.Binary? || e.Text? then e.bytes else []
  {
    assert [e][..0] == [];
    if e.Binary? || e.Text? {
      assert Pieces([e]) == [e.bytes] && [e.bytes][1..] == [];
      assert e.bytes + [] == e.bytes;
    }
  }

  /** At most `n` of them. */
  function Upto(packets: seq<Packet>, n: nat): seq<Packet> {
    if |packets| <= n then packets else packets[..n]
  }

  lemma UptoStep(sent: seq<Packet>, p: Packet, later: seq<Packet>, n: nat)
    requires |sent| <= n
    ensures Upto(sent + ([p] + later), n) ==
      if |sent| == n then sent else Upto(sent + [p] + later, n)
  {
    assert sent + ([p] + later) == sent + [p] + later;
  }

  // ----- the loops -------------------------------------------------------------------------

  /** One decoding attempt, told by what the stream still yields. */
  method Next(inbound: Inbound, ghost future: Bytes) returns (p: Option<Packet>, more: bool)
    modifies inbound
    ensures p.Some? ==>
      && |inbound.buf| < |old(inbound.buf)|
      && Packets(old(inbound.buf) + future) == [p.value] + Packets(inbound.buf + future)
    ensures p.None? && more ==>
      && inbound.buf == old(inbound.buf) && |inbound.buf| <= MAX_PACKET_SIZE + 4
      && Packets(inbound.buf) == []
    ensures p.None? && !more ==> Packets(old(inbound.buf) + future) == []
  {
    PacketsStep(inbound.buf, future);
    var r := inbound.DecodeOne();
    p := if r.Got? then Some(r.packet) else None;
    more := !r.Bad?;
  }

  /** Decodes and sends everything that is complete. `more` tells whether the loop goes on
      reading; it stops on a malformed packet, and when the session took `accepts` packets
      and no longer listens. */
  method Drain(inbound: Inbound, sent: seq<Packet>, accepts: nat, ghost future: Bytes)
    returns (out: seq<Packet>, more: bool)
    requires |sent| <= accepts
    modifies inbound
    ensures |out| <= accepts
    ensures more ==> |inbound.buf| <= MAX_PACKET_SIZE + 4 && Packets(inbound.buf) == []
    ensures more ==> out + Packets(inbound.buf + future) == sent + Packets(old(inbound.buf) + future)
    ensures !more ==> out == Upto(sent + Packets(old(inbound.buf) + future), accepts)
  {
    hide Parse;
    out := sent;
    while true
      invariant |out| <= accepts
      invariant out + Packets(inbound.buf + future) == sent + Packets(old(inbound.buf) + future)
      decreases |inbound.buf|
    {
      var p;
      p, more := Next(inbound, future);
      if p.None? {
        assert out + [] == out;
        return out, more;
      }
      ghost var later := Packets(inbound.buf + future);
      UptoStep(out, p.value, later, accepts);
      if |out| == accepts {
        return out, false;
      }
      assert out + ([p.value] + later) == out + [p.value] + later;
      out := out + [p.value];
    }
  }

  /** `tcp_read_loop`. The guard on the buffer size never fires. */
  method TcpReadLoop(chunks: seq<Bytes>, accepts: nat) returns (sent: seq<Packet>)
    ensures sent == Upto(Packets(Received(chunks)), accepts)
  {
    hide Parse;
    var inbound := new Inbound();
    sent := [];
    var i := 0;
    assert chunks[0..] == chunks && [] + Received(chunks) == Received(chunks);
    assert [] + Packets(Received(chunks)) == Packets(Received(chunks));
    while true
      invariant i <= |chunks| && |sent| <= accepts
      invariant sent + Packets(inbound.buf + Received(chunks[i..])) == Packets(Received(chunks))
      decreases |chunks| - i
    {
      var more;
      sent, more := Drain(inbound, sent, accepts, Received(chunks[i..]));
      if !more || |inbound.buf| > MAX_PACKET_SIZE + 5 {
        return;
      }
      if i == |chunks| || chunks[i] == [] {
        assert inbound.buf + [] == inbound.buf;
        assert sent + [] == sent;
        return;
      }
      assert chunks[i..][1..] == chunks[i + 1..];
      assert inbound.buf + (chunks[i] + Received(chunks[i + 1..]))
          == inbound.buf + chunks[i] + Received(chunks[i + 1..]);
      inbound.buf := inbound.buf + chunks[i];
      i := i + 1;
    }
  }

  /** `ws_read_loop`: pings and pongs carry no bytes. */
  method WsReadLoop(events: seq<WsEvent>, accepts: nat) returns (sent: seq<Packet>)
    ensures sent == Upto(Packets(ReceivedWs(events)), accepts)
  {
    hide Parse;
    var inbound := new Inbound();
    sent := [];
    var i := 0;
    assert events[0..] == events && [] + ReceivedWs(events) == ReceivedWs(events);
    assert [] + Packets(ReceivedWs(events)) == Packets(ReceivedWs(events));
    while true
      invariant i <= |events| && |sent| <= accepts
      invariant sent + Packets(inbound.buf + ReceivedWs(events[i..])) == Packets(ReceivedWs(events))
      decreases |events| - i
    {
      var more;
      sent, more := Drain(inbound, sent, accepts, ReceivedWs(events[i..]));
      if !more || |inbound.buf| > MAX_PACKET_SIZE + 5 {
        return;
      }
      if i == |events| || events[i].Closed? {
        assert inbound.buf + [] == inbound.buf;
        assert sent + [] == sent;
        return;
      }
      assert events[i..][1..] == events[i + 1..];
      var bytes := if events[i].Binary? || events[i].Text? then events[i].bytes else [];
      assert inbound.buf + (bytes + ReceivedWs(events[i + 1..]))
          == inbound.buf + bytes + ReceivedWs(events[i + 1..]);
      inbound.buf := inbound.buf + bytes;
      i := i + 1;
    }
  }

  // ----- end to end ------------------------------------------------------------------------

  function PrintAll(packets: seq<Packet>): Bytes {
    if packets == [] then [] else Print(packets[0]) + PrintAll(packets[1..])
  }

  /** A peer's packets come out as they went in, followed by nothing while the next one is
      still on its way. */
  lemma {:induction false} StreamRoundTrip(packets: seq<Packet>, tail: Bytes)
    requires forall p :: p in packets ==> WellFormed(p) && Fits(p)
    requires !Parse(tail).Got?
    ensures Packets(PrintAll(packets) + tail) == packets
  {
    hide Parse, Print, WellFormed, Fits;
    if packets == [] {
      assert [] + tail == tail;
    } else {
      var later := PrintAll(packets[1..]) + tail;
      assert packets[0] in packets;
      PrintThenParse(packets[0], later);
      assert PrintAll(packets) + tail == Print(packets[0]) + later;
      StreamRoundTrip(packets[1..], tail);
    }
  }

  /** Whatever the read loop hands over is well-formed. */
  lemma {:induction false} PacketsWellFormed(stream: Bytes)
    ensures forall p :: p in Packets(stream) ==> WellFormed(p) && Fits(p)
    decreases |stream|
  {
    if Parse(stream).Got? {
      ParseAccepts(stream);
      PacketsWellFormed(Parse(stream).rest);
    }
  }
}
