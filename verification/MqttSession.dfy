/** Packet identifiers of one MQTT session (src/mqtt/session.rs): every QoS 1 delivery takes a
    free identifier, and the PUBACK that names it completes that delivery. */
module MqttSession {
  import opened Wrappers
  import opened Collections
  import opened MqttSyntax
  import opened Topic

  const IDS: nat := 65535

  /** A message on its way to the client, under the lease registered for its acknowledgement. */
  datatype Delivery = Delivery(messageId: string, lease: string)

  // ----- allocation ------------------------------------------------------------------------

  /** Identifiers go round 1..65535; zero is only the initial counter (section 2.3.1). */
  function Bump(next: u16): (n: u16)
    ensures n != 0
  {
    if next == 65535 then 1 else next + 1
  }

  /** The identifier `n` bumps ahead. */
  function Ahead(next: u16, n: nat): u16
    requires n > 0
  {
    (next + n - 1) % 65535 + 1
  }

  /** `id` is the first identifier after `next` that is not in use, if there is one. */
  ghost predicate FirstFree(next: u16, used: set<u16>, id: u16) {
    exists n: nat :: 0 < n <= IDS && id == Ahead(next, n)
      && (forall m: nat :: 0 < m < n ==> Ahead(next, m) in used)
      && (id !in used || n == IDS)
  }

  /** From any counter the rotation reaches every identifier. */
  lemma Reaches(next: u16, id: u16) returns (n: nat)
    requires id != 0
    ensures 0 < n <= IDS && Ahead(next, n) == id
  {
    n := if id > next then id - next
         else if next == 65535 && id == 65535 then IDS
         else id + IDS - next;
  }

  lemma FirstFreeIsFree(next: u16, used: set<u16>, id: u16, free: u16)
    requires FirstFree(next, used, id)
    requires free != 0 && free !in used
    ensures id !in used
  {
    var n: nat :| 0 < n <= IDS && id == Ahead(next, n)
      && (forall m: nat :: 0 < m < n ==> Ahead(next, m) in used)
      && (id !in used || n == IDS);
    var k := Reaches(next, free);
    assert Ahead(next, k) !in used;
  }

  /** The identifiers 1..n. */
  ghost function Range(n: nat): (ids: set<u16>)
    requires n <= IDS
    ensures |ids| == n
    ensures forall id :: id in ids <==> 0 < id <= n
  {
    if n == 0 then {} else Range(n - 1) + {n}
  }

  lemma Pigeonhole(used: set<u16>, n: nat)
    requires n <= IDS && forall id :: id in used ==> 0 < id <= n
    ensures (exists id: u16 :: 0 < id <= n && id !in used) <==> |used| < n
  {
    assert used <= Range(n);
    SubsetSize(used, Range(n));
    if used != Range(n) {
      var id: u16 :| id in Range(n) && id !in used;
    }
  }

  /** There is a free identifier exactly while fewer than 65,535 are in use. */
  lemma FreeExists(used: set<u16>)
    requires 0 !in used
    ensures (exists id: u16 :: id != 0 && id !in used) <==> |used| < IDS
  {
    Pigeonhole(used, IDS);
  }

  /** The allocated identifier is free exactly while one exists. */
  lemma AllocatedIsFree(next: u16, used: set<u16>, id: u16)
    requires 0 !in used && FirstFree(next, used, id)
    ensures id != 0
    ensures id !in used <==> |used| < IDS
  {
    FreeExists(used);
    if |used| < IDS {
      var free: u16 :| free != 0 && free !in used;
      FirstFreeIsFree(next, used, id, free);
    }
  }

  lemma BumpIsAhead(next: u16, n: nat)
    requires n < IDS
    ensures Ahead(next, n + 1) == Bump(if n == 0 then next else Ahead(next, n))
  {
  }

  /** The next identifier, if it is free. */
  lemma NextIfFree(next: u16, used: set<u16>, id: u16)
    requires FirstFree(next, used, id)
    ensures next < 65535 && next + 1 !in used ==> id == next + 1
    ensures next == 65535 && 1 !in used ==> id == 1
  {
    var n: nat :| 0 < n <= IDS && id == Ahead(next, n)
      && (forall m: nat :: 0 < m < n ==> Ahead(next, m) in used)
      && (id !in used || n == IDS);
    assert Ahead(next, 1) == if next == 65535 then 1 else next + 1;
    if n > 1 { assert Ahead(next, 1) in used; }
  }

  /** `alloc_packet_id`. */
  method AllocPacketId(next: u16, used: map<u16, Delivery>) returns (id: u16)
    ensures FirstFree(next, used.Keys, id)
    ensures 0 !in used ==> id != 0 && (id !in used <==> |used.Keys| < 65535)
    ensures next < 65535 && next + 1 !in used ==> id == next + 1
    ensures next == 65535 && 1 !in used ==> id == 1
  {
    id := FindFree(next, used);
    hide FirstFree;
    NextIfFree(next, used.Keys, id);
    if 0 !in used { AllocatedIsFree(next, used.Keys, id); }
  }

  method FindFree(next: u16, used: map<u16, Delivery>) returns (id: u16)
    ensures FirstFree(next, used.Keys, id)
  {
    id := next;
    hide Ahead, Bump;
    for n := 0 to IDS
      invariant n == 0 ==> id == next
      invariant n > 0 ==> id == Ahead(next, n)
      invariant forall m: nat :: 0 < m <= n ==> Ahead(next, m) in used.Keys
    {
      BumpIsAhead(next, n);
      id := Bump(id);
      if id !in used {
        return;
      }
    }
  }

  // ----- a session's run -------------------------------------------------------------------

  /** The session's table, with the record of everything it ever issued and completed.
      `serial` tells which issue each identifier in flight stands for. */
  datatype Run = Run(next: u16, inflight: map<u16, Delivery>, issued: seq<(u16, Delivery)>,
                     serial: map<u16, nat>, completed: seq<nat>)

  const FRESH := Run(0, map[], [], map[], [])

  /** `queue_outgoing` at QoS 1, with the identifier the allocation chose. */
  function Send(r: Run, d: Delivery, id: u16): Run {
    Run(id, r.inflight[id := d], r.issued + [(id, d)], r.serial[id := |r.issued|], r.completed)
  }

  /** A PUBACK: the delivery it completes, if its identifier is in flight. */
  function Acknowledged(r: Run, id: u16): Option<Delivery> {
    if id in r.inflight then Some(r.inflight[id]) else None
  }

  function Acknowledge(r: Run, id: u16): Run {
    if id in r.inflight && id in r.serial
    then r.(inflight := r.inflight - {id}, serial := r.serial - {id},
            completed := r.completed + [r.serial[id]])
    else r
  }

  /** Issue `k` is still waiting for its PUBACK. */
  predicate Outstanding(r: Run, k: nat)
    requires k < |r.issued|
  {
    r.issued[k].0 in r.serial && r.serial[r.issued[k].0] == k
  }

  /** Every issue is either outstanding or completed once; an identifier in flight stands for
      its latest issue. */
  ghost predicate Consistent(r: Run) {
    && r.serial.Keys == r.inflight.Keys && 0 !in r.inflight
    && (forall id :: id in r.serial ==>
          && r.serial[id] < |r.issued| && r.issued[r.serial[id]] == (id, r.inflight[id])
          && forall k :: r.serial[id] < k < |r.issued| ==> r.issued[k].0 != id)
    && (forall k :: 0 <= k < |r.issued| ==> (k in r.completed <==> !Outstanding(r, k)))
    && (forall i :: 0 <= i < |r.completed| ==> r.completed[i] < |r.issued|)
    && Distinct(r.completed)
  }

  lemma SendKeeps(r: Run, d: Delivery, id: u16)
    requires Consistent(r) && id != 0 && id !in r.inflight
    ensures Consistent(Send(r, d, id))
  {
    var r' := Send(r, d, id);
    forall k | 0 <= k < |r'.issued|
      ensures k in r'.completed <==> !Outstanding(r', k)
    {
      if k < |r.issued| {
        assert Outstanding(r', k) <==> Outstanding(r, k);
      }
    }
  }

  lemma AcknowledgeKeeps(r: Run, id: u16)
    requires Consistent(r)
    ensures Consistent(Acknowledge(r, id))
  {
    if id in r.inflight {
      var r' := Acknowledge(r, id);
      var done := r.serial[id];
      assert Outstanding(r, done);
      forall k | 0 <= k < |r'.issued|
        ensures k in r'.completed <==> !Outstanding(r', k)
      {
        assert k != done ==> (Outstanding(r', k) <==> Outstanding(r, k));
      }
    }
  }

  datatype Event = Deliver(d: Delivery, id: u16) | PubAck(id: u16)

  function After(r: Run, events: seq<Event>): Run {
    if events == [] then r
    else
      var last := events[|events| - 1];
      var before := After(r, events[..|events| - 1]);
      match last
      case Deliver(d, id) => Send(before, d, id)
      case PubAck(id) => Acknowledge(before, id)
  }

  /** Each identifier is the allocator's choice, and the table was not full when it chose. */
  ghost predicate Possible(r: Run, events: seq<Event>) {
    events == [] ||
    var before := After(r, events[..|events| - 1]);
    && Possible(r, events[..|events| - 1])
    && match events[|events| - 1]
       case Deliver(_, id) =>
         |before.inflight.Keys| < IDS && FirstFree(before.next, before.inflight.Keys, id)
       case PubAck(_) => true
  }

  lemma {:induction false} RunConsistent(events: seq<Event>)
    requires Possible(FRESH, events)
    ensures Consistent(After(FRESH, events))
  {
    if events != [] {
      var init, last := events[..|events| - 1], events[|events| - 1];
      RunConsistent(init);
      var before := After(FRESH, init);
      match last {
        case Deliver(d, id) =>
          AllocatedIsFree(before.next, before.inflight.Keys, id);
          SendKeeps(before, d, id);
        case PubAck(id) =>
          AcknowledgeKeeps(before, id);
      }
    }
  }

  /** After any run that never filled the table, a PUBACK completes exactly the latest delivery
      issued under its identifier, once, and completes nothing when that one was already
      acknowledged or never issued. */
  lemma PubAckCompletesItsDelivery(events: seq<Event>, id: u16)
    requires Possible(FRESH, events)
    ensures var r := After(FRESH, events);
      match Acknowledged(r, id)
      case Some(d) =>
        && id in r.serial && r.serial[id] < |r.issued|
        && r.issued[r.serial[id]] == (id, d)
        && (forall k :: r.serial[id] < k < |r.issued| ==> r.issued[k].0 != id)
        && r.serial[id] !in r.completed
        && Acknowledge(r, id).completed == r.completed + [r.serial[id]]
        && Acknowledged(Acknowledge(r, id), id).None?
      case None =>
        && (forall k :: 0 <= k < |r.issued| && r.issued[k].0 == id ==> k in r.completed)
        && Acknowledge(r, id) == r
  {
    RunConsistent(events);
    var r := After(FRESH, events);
    if id in r.inflight {
      assert Outstanding(r, r.serial[id]);
    } else {
      forall k | 0 <= k < |r.issued| && r.issued[k].0 == id
        ensures k in r.completed
      {
        assert !Outstanding(r, k);
      }
    }
  }

  // ----- a full table ----------------------------------------------------------------------

  /** Issue `k` was not completed, and no identifier stands for it any more. */
  ghost predicate Gone(r: Run, k: nat) {
    k < |r.issued| && k !in r.completed && forall id :: id in r.serial ==> r.serial[id] != k
  }

  /** Nothing completes it ever after, whatever is delivered and acknowledged. */
  lemma {:induction false} GoneForever(r: Run, events: seq<Event>, k: nat)
    requires Gone(r, k)
    ensures Gone(After(r, events), k)
  {
    if events != [] { GoneForever(r, events[..|events| - 1], k); }
  }

  /** With every identifier in use the next delivery takes one of them over, and the delivery it
      stood for is not completed by any further events. */
  lemma FullTableLosesADelivery(r: Run, d: Delivery, id: u16, events: seq<Event>)
    requires Consistent(r) && |r.inflight.Keys| >= IDS
    requires FirstFree(r.next, r.inflight.Keys, id)
    ensures id in r.inflight && !Consistent(Send(r, d, id))
    ensures Outstanding(r, r.serial[id])
    ensures r.serial[id] !in After(Send(r, d, id), events).completed
  {
    AllocatedIsFree(r.next, r.inflight.Keys, id);
    var lost := r.serial[id];
    var r' := Send(r, d, id);
    assert Outstanding(r, lost);
    assert !Outstanding(r', lost);
    assert lost !in r'.completed;
    assert Gone(r', lost);
    GoneForever(r', events, lost);
  }

  /** As many deliveries as there are identifiers, none acknowledged. */
  function Filling(d: Delivery, n: nat): (events: seq<Event>)
    requires n <= IDS
    ensures |events| == n
  {
    if n == 0 then [] else Filling(d, n - 1) + [Deliver(d, n)]
  }

  /** Identifiers 1..n are in flight, in the order they were issued. */
  ghost predicate Filled(r: Run, n: nat) {
    && r.next == n && |r.issued| == n && r.completed == []
    && (forall id :: id in r.inflight <==> 0 < id <= n)
    && (forall id :: 0 < id <= n ==> id in r.serial && r.serial[id] == id - 1)
  }

  lemma FilledSize(r: Run, n: nat)
    requires Filled(r, n) && n <= IDS
    ensures |r.inflight.Keys| == n
  {
    var ids := Range(n);
    assert r.inflight.Keys == ids;
  }

  lemma FillOne(r: Run, d: Delivery, n: u16)
    requires 0 < n <= IDS && Filled(r, n - 1)
    ensures |r.inflight.Keys| < IDS && FirstFree(r.next, r.inflight.Keys, n)
    ensures Filled(Send(r, d, n), n)
  {
    FilledSize(r, n - 1);
    assert Ahead(r.next, 1) == n;
  }

  lemma {:induction false} FillingIsPossible(d: Delivery, n: nat)
    requires n <= IDS
    ensures Possible(FRESH, Filling(d, n)) && Filled(After(FRESH, Filling(d, n)), n)
  {
    if n > 0 {
      FillingIsPossible(d, n - 1);
      var events := Filling(d, n);
      assert events[..|events| - 1] == Filling(d, n - 1);
      hide Filling, FirstFree, Filled;
      FillOne(After(FRESH, events[..|events| - 1]), d, n);
    }
  }

  lemma AheadInRange(next: u16, n: nat)
    requires n > 0
    ensures 0 < Ahead(next, n) <= IDS
  {
  }

  /** A whole round leads back to where it began. */
  lemma AheadAround(next: u16)
    requires next != 0
    ensures Ahead(next, IDS) == next
  {
  }

  predicate InRange(id: u16) { 0 < id <= IDS }

  lemma AllUsed(next: u16, used: set<u16>)
    requires InRange(next) && forall id: u16 :: InRange(id) ==> id in used
    ensures FirstFree(next, used, next)
  {
    AheadAround(next);
    forall m: nat | 0 < m < IDS ensures Ahead(next, m) in used {
      AheadInRange(next, m);
      assert InRange(Ahead(next, m));
    }
  }

  /** The full table is reached: after 65,535 deliveries without an answer the next one takes the
      identifier used last, and the delivery sent under it is never completed. */
  lemma LatestDeliveryIsLost(d: Delivery, n: u16, events: seq<Event>)
    requires n == IDS
    ensures var r := After(FRESH, Filling(d, n));
      && Possible(FRESH, Filling(d, n)) && |r.inflight.Keys| == n
      && FirstFree(r.next, r.inflight.Keys, n)
      && n - 1 !in After(Send(r, d, n), events).completed
  {
    FillingIsPossible(d, n);
    RunConsistent(Filling(d, n));
    var r := After(FRESH, Filling(d, n));
    hide Filling;
    FilledSize(r, n);
    AllUsed(n, r.inflight.Keys);
    assert n in r.serial && r.serial[n] == n - 1;
    hide After, FirstFree, Consistent, Possible, Filled;
    FullTableLosesADelivery(r, d, n, events);
  }

  /** `granted_qos`: the highest level granted to a matching filter, at most 1. */
  method GrantedQos(qosByFilter: map<string, nat>, topic: string) returns (qos: nat)
    ensures qos <= 1
    ensures qos == 1 <==> exists f :: f in qosByFilter && Matches(f, topic) && qosByFilter[f] >= 1
  {
    var left := qosByFilter.Keys;
    var highest := 0;
    while left != {}
      invariant left <= qosByFilter.Keys
      invariant highest >= 1 <==>
        exists f :: f in qosByFilter && f !in left && Matches(f, topic) && qosByFilter[f] >= 1
      decreases |left|
    {
      var f :| f in left;
      left := left - {f};
      var matches := FilterMatches(f, topic);
      if matches && qosByFilter[f] > highest {
        highest := qosByFilter[f];
      }
    }
    qos := if highest < 1 then highest else 1;
  }

  /** The identifier counter and table a session updates in place. */
  class SessionState {
    var next: u16
    var inflight: map<u16, Delivery>
    ghost var run: Run

    ghost predicate Valid()
      reads this
    {
      && run.next == next && run.inflight == inflight
      && run.serial.Keys == inflight.Keys && 0 !in inflight
    }

    constructor ()
      ensures Valid() && run == FRESH
    {
      next, inflight, run := 0, map[], FRESH;
    }

    /** At QoS 0 no identifier is taken: the delivery is acknowledged once it is written. */
    method QueueOutgoing(d: Delivery, qos: nat) returns (id: Option<u16>)
      requires Valid()
      modifies this
      ensures Valid()
      ensures id.None? <==> qos == 0
      ensures qos == 0 ==> run == old(run) && inflight == old(inflight) && next == old(next)
      ensures qos > 0 ==>
        && id.value != 0 && FirstFree(old(next), old(inflight.Keys), id.value)
        && run == Send(old(run), d, id.value) && inflight == old(inflight)[id.value := d] && next == id.value
        && (id.value !in old(inflight) <==> |old(inflight.Keys)| < IDS)
        && (old(Consistent(run)) ==> (Consistent(run) <==> |old(inflight.Keys)| < IDS))
    {
      hide FirstFree, Consistent;
      if qos == 0 { return None; }
      var free := AllocPacketId(next, inflight);
      if Consistent(run) {
        if free !in inflight {
          SendKeeps(run, d, free);
        } else {
          FullTableLosesADelivery(run, d, free, []);
        }
      }
      next := free;
      inflight := inflight[free := d];
      run := Send(run, d, free);
      id := Some(free);
    }

    method HandlePubAck(id: u16) returns (completed: Option<Delivery>)
      requires Valid()
      modifies this
      ensures Valid() && run == Acknowledge(old(run), id)
      ensures completed == if id in old(inflight) then Some(old(inflight)[id]) else None
      ensures inflight == old(inflight) - {id} && next == old(next)
      ensures old(Consistent(run)) ==> Consistent(run)
    {
      if Consistent(run) { AcknowledgeKeeps(run, id); }
      completed := if id in inflight then Some(inflight[id]) else None;
      inflight := inflight - {id};
      run := Acknowledge(run, id);
    }
  }
}
