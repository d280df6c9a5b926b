/** One shard of the message table (src/db.rs). Each SQL statement is one atomic step on a map of
    rows. A message moves pending -> processing -> delivered, failed or dropped, or back to
    pending; every exit from processing names the row's lease. Times are integers (nanoseconds),
    lease identifiers are fresh values chosen outside. */
module MessageStore {
  import opened Wrappers

  const SECOND: int := 1_000_000_000

  datatype Status = Pending | Processing | Delivered | Failed | Dropped

  datatype Row = Row(key: Option<string>, topic: string, payload: seq<int>, status: Status,
                     attempts: nat, nextAt: int, createdAt: int, lease: Option<string>)

  type Rows = map<string, Row>

  datatype Item = Item(id: string, key: Option<string>, topic: string, payload: seq<int>)

  predicate Terminal(s: Status) { s.Delivered? || s.Failed? || s.Dropped? }

  predicate Ready(r: Row, now: int) { r.status.Pending? && r.nextAt <= now }

  /** The guard of every exit from processing. */
  predicate Held(rows: Rows, id: string, lease: string) {
    id in rows && rows[id].status.Processing? && rows[id].lease == Some(lease)
  }

  predicate KeyTaken(rows: Rows, key: Option<string>) {
    key.Some? && exists id :: id in rows && rows[id].key == key
  }

  /** The insert of an item is ignored when its id or its key is already there. */
  predicate Conflicts(rows: Rows, item: Item) {
    item.id in rows || KeyTaken(rows, item.key)
  }

  function NewRow(item: Item, now: int): Row {
    Row(item.key, item.topic, item.payload, Pending, 0, now, now, None)
  }

  function Claimed(r: Row, lease: string, until: int): Row {
    r.(status := Processing, attempts := r.attempts + 1, lease := Some(lease), nextAt := until)
  }

  function Closed(r: Row, status: Status): Row { r.(status := status, lease := None) }

  function Pow2(n: nat): nat { if n == 0 then 1 else 2 * Pow2(n - 1) }

  /** Seconds to wait after a failed attempt. */
  function Backoff(attempts: nat): nat {
    var secs := Pow2(if attempts < 8 then attempts else 8);
    if secs < 300 then secs else 300
  }

  /** The wait doubles with each attempt up to 256 seconds; the cap of 300 is never reached. */
  lemma BackoffDoubles(attempts: nat)
    ensures Backoff(0) == 1
    ensures attempts < 8 ==> Backoff(attempts + 1) == 2 * Backoff(attempts)
    ensures attempts >= 8 ==> Backoff(attempts) == 256
    ensures 1 <= Backoff(attempts) <= 256
  {
    assert Pow2(4) == 16 && Pow2(8) == 256;
    if attempts < 8 { Pow2Grows(attempts + 1, 8); }
  }

  lemma {:induction false} Pow2Grows(a: nat, b: nat)
    requires a <= b
    ensures 1 <= Pow2(a) <= Pow2(b)
    decreases b
  {
    if a < b { Pow2Grows(a, b - 1); } else if a > 0 { Pow2Grows(a - 1, b - 1); }
  }

  /** The row after a failure report that saw `attempts` claims. */
  function AfterFailure(r: Row, attempts: nat, maxAttempts: int, now: int): Row {
    Closed(r, if attempts >= maxAttempts then Failed else Pending)
      .(nextAt := now + Backoff(attempts) * SECOND)
  }

  /** One statement. `Claim` covers the batch claim of a topic and the single claim after a
      separate select; both recheck only that the picked rows are still pending. */
  datatype Op =
    | Enqueue(item: Item, now: int)
    | Claim(picked: set<string>, lease: string, until: int)
    | Renew(id: string, lease: string, now: int, until: int)
    | Deliver(id: string, lease: string)
    | Fail(id: string, lease: string, seen: nat, maxAttempts: int, now: int)
    | Release(id: string, lease: string, now: int)
    | DropPending(topic: string)
    | DropClaimed(id: string, lease: string)
    | Reclaim(now: int)
    | Restart

  function Apply(rows: Rows, op: Op): Rows {
    match op
    case Enqueue(item, now) =>
      if Conflicts(rows, item) then rows else rows[item.id := NewRow(item, now)]
    case Claim(picked, lease, until) =>
      map id | id in rows ::
        if id in picked && rows[id].status.Pending? then Claimed(rows[id], lease, until) else rows[id]
    case Renew(id, lease, now, until) =>
      if Held(rows, id, lease) && rows[id].nextAt > now
      then rows[id := rows[id].(nextAt := until)] else rows
    case Deliver(id, lease) =>
      if Held(rows, id, lease) then rows[id := Closed(rows[id], Delivered)] else rows
    case Fail(id, lease, seen, maxAttempts, now) =>
      if Held(rows, id, lease)
      then rows[id := AfterFailure(rows[id], seen, maxAttempts, now)] else rows
    case Release(id, lease, now) =>
      if Held(rows, id, lease)
      then rows[id := Closed(rows[id], Pending).(nextAt := now)] else rows
    case DropPending(topic) =>
      map id | id in rows ::
        if rows[id].topic == topic && rows[id].status.Pending? then Closed(rows[id], Dropped)
        else rows[id]
    case DropClaimed(id, lease) =>
      if Held(rows, id, lease) then rows[id := Closed(rows[id], Dropped)] else rows
    case Reclaim(now) =>
      map id | id in rows ::
        if rows[id].status.Processing? && rows[id].nextAt <= now then Closed(rows[id], Pending)
        else rows[id]
    case Restart =>
      map id | id in rows ::
        if rows[id].status.Processing? then Closed(rows[id], Pending) else rows[id]
  }

  // ----- runs ------------------------------------------------------------------------------

  /** The table with the record of a run: leases handed out, claims made per message, and the
      claims (message and lease) that came to an end. */
  datatype World = World(rows: Rows, used: set<string>, claims: map<string, nat>,
                         ended: multiset<(string, string)>)

  const EMPTY := World(map[], {}, map[], multiset{})

  /** A claim draws a lease never used before. */
  predicate Possible(w: World, op: Op) { op.Claim? ==> op.lease !in w.used }

  predicate ClaimedBy(rows: Rows, op: Op, id: string) {
    op.Claim? && id in op.picked && id in rows && rows[id].status.Pending?
  }

  /** The claims that hold before the operation and not after it. */
  ghost function EndedBy(rows: Rows, op: Op): set<(string, string)> {
    set id | id in rows && rows[id].lease.Some? && !Held(Apply(rows, op), id, rows[id].lease.value)
      :: (id, rows[id].lease.value)
  }

  ghost function Step(w: World, op: Op): World {
    World(Apply(w.rows, op),
          if op.Claim? then w.used + {op.lease} else w.used,
          map id | id in Apply(w.rows, op) ::
            (if id in w.claims then w.claims[id] else 0) + (if ClaimedBy(w.rows, op, id) then 1 else 0),
          w.ended + multiset(EndedBy(w.rows, op)))
  }

  ghost predicate RowOk(w: World, id: string)
    requires id in w.rows
  {
    var r := w.rows[id];
    && (r.status.Processing? <==> r.lease.Some?)
    && (r.lease.Some? ==> r.lease.value in w.used)
    && id in w.claims && r.attempts == w.claims[id]
  }

  predicate KeysUnique(rows: Rows) {
    forall a, b :: a in rows && b in rows && rows[a].key.Some? && rows[a].key == rows[b].key ==> a == b
  }

  /** A claim that ended did so once, under a used lease, and is not held any more. */
  ghost predicate EndedOk(w: World) {
    forall p :: p in w.ended ==>
      w.ended[p] == 1 && p.1 in w.used && !Held(w.rows, p.0, p.1)
  }

  ghost predicate Sound(w: World) {
    && w.claims.Keys == w.rows.Keys
    && (forall id :: id in w.rows ==> RowOk(w, id))
    && KeysUnique(w.rows) && EndedOk(w)
  }

  // ----- single steps ----------------------------------------------------------------------

  /** No operation removes a row or touches what was published, and a terminal row never
      changes again. */
  lemma RowsPersist(rows: Rows, op: Op, id: string)
    requires id in rows
    ensures id in Apply(rows, op)
    ensures var r, r' := rows[id], Apply(rows, op)[id];
      && r'.key == r.key && r'.topic == r.topic && r'.payload == r.payload
      && r'.createdAt == r.createdAt && r.attempts <= r'.attempts
      && (Terminal(r.status) ==> r' == r)
  {
  }

  /** What an operation can do to one existing row. */
  lemma RowStep(rows: Rows, op: Op, id: string)
    requires id in rows && (rows[id].status.Processing? <==> rows[id].lease.Some?)
    ensures var r, r' := rows[id], Apply(rows, op)[id];
      if ClaimedBy(rows, op, id) then r' == Claimed(r, op.lease, op.until)
      else
        && r'.attempts == r.attempts
        && (r'.status.Processing? <==> r'.lease.Some?)
        && (r'.lease == r.lease || r'.lease.None?)
  {
  }

  lemma RowStays(w: World, op: Op, id: string)
    requires Sound(w) && Possible(w, op) && id in w.rows
    ensures RowOk(Step(w, op), id)
  {
    assert RowOk(w, id);
    RowStep(w.rows, op, id);
    RowsPersist(w.rows, op, id);
  }

  lemma RowsStay(w: World, op: Op)
    requires Sound(w) && Possible(w, op)
    ensures var w' := Step(w, op);
      w'.claims.Keys == w'.rows.Keys && forall id :: id in w'.rows ==> RowOk(w', id)
  {
    var w' := Step(w, op);
    forall id | id in w'.rows ensures RowOk(w', id) {
      if id in w.rows { RowStays(w, op, id); }
    }
  }

  lemma KeysStay(rows: Rows, op: Op)
    requires KeysUnique(rows)
    ensures KeysUnique(Apply(rows, op))
  {
    var rows' := Apply(rows, op);
    forall a, b | a in rows' && b in rows' && rows'[a].key.Some? && rows'[a].key == rows'[b].key
      ensures a == b
    {
      if a in rows { RowsPersist(rows, op, a); }
      if b in rows { RowsPersist(rows, op, b); }
    }
  }

  /** A used lease that does not hold a row never will. */
  lemma NotHeldStays(w: World, op: Op, id: string, lease: string)
    requires Sound(w) && Possible(w, op) && lease in w.used && !Held(w.rows, id, lease)
    ensures !Held(Apply(w.rows, op), id, lease)
  {
    if id in w.rows {
      assert RowOk(w, id);
      RowStep(w.rows, op, id);
    }
  }

  lemma EndedByMeaning(w: World, op: Op, p: (string, string))
    requires Sound(w) && p in EndedBy(w.rows, op)
    ensures p.1 in w.used && Held(w.rows, p.0, p.1) && !Held(Apply(w.rows, op), p.0, p.1)
  {
    assert RowOk(w, p.0);
  }

  lemma EndedStays(w: World, op: Op)
    requires Sound(w) && Possible(w, op)
    ensures EndedOk(Step(w, op))
  {
    var w' := Step(w, op);
    forall p | p in w'.ended
      ensures w'.ended[p] == 1 && p.1 in w'.used && !Held(w'.rows, p.0, p.1)
    {
      if p in EndedBy(w.rows, op) {
        EndedByMeaning(w, op, p);
      } else {
        NotHeldStays(w, op, p.0, p.1);
      }
    }
  }

  lemma StepSound(w: World, op: Op)
    requires Sound(w) && Possible(w, op)
    ensures Sound(Step(w, op))
  {
    RowsStay(w, op);
    KeysStay(w.rows, op);
    EndedStays(w, op);
  }

  // ----- every run -------------------------------------------------------------------------

  ghost function Run(w: World, ops: seq<Op>): World
    decreases |ops|
  {
    if ops == [] then w else Run(Step(w, ops[0]), ops[1..])
  }

  ghost predicate PossibleRun(w: World, ops: seq<Op>)
    decreases |ops|
  {
    ops == [] || (Possible(w, ops[0]) && PossibleRun(Step(w, ops[0]), ops[1..]))
  }

  lemma {:induction false} RunSound(w: World, ops: seq<Op>)
    requires Sound(w) && PossibleRun(w, ops)
    ensures Sound(Run(w, ops))
    decreases |ops|
  {
    if ops != [] {
      StepSound(w, ops[0]);
      RunSound(Step(w, ops[0]), ops[1..]);
    }
  }

  /** After any run from an empty table: a message is processing exactly while it holds a lease,
      its attempts count its claims, no two messages share a key, and no claim ended twice. */
  lemma LeaseDiscipline(ops: seq<Op>, id: string)
    requires PossibleRun(EMPTY, ops)
    ensures var w := Run(EMPTY, ops);
      && (id in w.rows ==>
            && (w.rows[id].status.Processing? <==> w.rows[id].lease.Some?)
            && id in w.claims && w.rows[id].attempts == w.claims[id])
      && KeysUnique(w.rows)
      && forall p :: w.ended[p] <= 1
  {
    RunSound(EMPTY, ops);
    var w := Run(EMPTY, ops);
    if id in w.rows { assert RowOk(w, id); }
    forall p ensures w.ended[p] <= 1 { if p in w.ended { assert w.ended[p] == 1; } }
  }

  /** A delivered, failed or dropped message is the same after any further run. */
  lemma {:induction false} TerminalForever(w: World, ops: seq<Op>, id: string)
    requires Sound(w) && PossibleRun(w, ops) && id in w.rows && Terminal(w.rows[id].status)
    ensures id in Run(w, ops).rows && Run(w, ops).rows[id] == w.rows[id]
    decreases |ops|
  {
    if ops != [] {
      assert RowOk(w, id);
      RowsPersist(w.rows, ops[0], id);
      StepSound(w, ops[0]);
      TerminalForever(Step(w, ops[0]), ops[1..], id);
    }
  }

  /** Once a claim is not held, its lease is refused by every later operation: nothing that
      names it changes the table. */
  lemma {:induction false} EndedClaimRefused(w: World, ops: seq<Op>, id: string, lease: string, op: Op)
    requires Sound(w) && PossibleRun(w, ops) && lease in w.used && !Held(w.rows, id, lease)
    requires op.Renew? || op.Deliver? || op.Fail? || op.Release? || op.DropClaimed?
    requires op.id == id && op.lease == lease
    ensures !Held(Run(w, ops).rows, id, lease)
    ensures Apply(Run(w, ops).rows, op) == Run(w, ops).rows
    decreases |ops|
  {
    if ops != [] {
      NotHeldStays(w, ops[0], id, lease);
      StepSound(w, ops[0]);
      EndedClaimRefused(Step(w, ops[0]), ops[1..], id, lease, op);
    }
  }

  predicate Draws(op: Op, lease: string) { op.Claim? && op.lease == lease }

  /** No claim of the run draws this lease. */
  predicate NotDrawn(ops: seq<Op>, lease: string) {
    forall i :: 0 <= i < |ops| ==> !Draws(ops[i], lease)
  }

  lemma HeldIsUsed(w: World, id: string, lease: string)
    requires Sound(w) && Held(w.rows, id, lease)
    ensures lease in w.used
  {
    assert RowOk(w, id);
  }

  /** A lease already used is never drawn again. */
  lemma {:induction false} UsedNotDrawn(w: World, ops: seq<Op>, lease: string)
    requires PossibleRun(w, ops) && lease in w.used
    ensures NotDrawn(ops, lease)
    decreases |ops|
  {
    if ops != [] {
      UsedNotDrawn(Step(w, ops[0]), ops[1..], lease);
      forall i | 0 <= i < |ops| ensures !Draws(ops[i], lease) {
        assert i > 0 ==> ops[i] == ops[1..][i - 1];
      }
    }
  }

  lemma HeldBefore(w: World, op: Op, id: string, lease: string)
    requires Sound(w) && !Draws(op, lease) && Held(Apply(w.rows, op), id, lease)
    ensures Held(w.rows, id, lease) && Apply(w.rows, op)[id].attempts == w.rows[id].attempts
  {
    if id in w.rows {
      assert RowOk(w, id);
      RowStep(w.rows, op, id);
    }
  }

  /** While a claim is held its attempt count stands still, so the count `failed` selects is
      the one its guarded update meets, whatever ran in between. */
  lemma {:induction false} AttemptsWhileHeld(w: World, ops: seq<Op>, id: string, lease: string)
    requires Sound(w) && PossibleRun(w, ops) && NotDrawn(ops, lease)
    requires Held(Run(w, ops).rows, id, lease)
    ensures Held(w.rows, id, lease)
    ensures Run(w, ops).rows[id].attempts == w.rows[id].attempts
    decreases |ops|
  {
    if ops != [] {
      StepSound(w, ops[0]);
      AttemptsWhileHeld(Step(w, ops[0]), ops[1..], id, lease);
      HeldBefore(w, ops[0], id, lease);
    }
  }

  /** What can end a claim before its deadline: its own calls, and a restart. A renewal may only
      move the deadline later. */
  predicate Spares(op: Op, id: string, lease: string, deadline: int) {
    match op
    case Renew(i, l, _, until) => i == id && l == lease ==> until >= deadline
    case Deliver(i, l) => !(i == id && l == lease)
    case Fail(i, l, _, _, _) => !(i == id && l == lease)
    case Release(i, l, _) => !(i == id && l == lease)
    case DropClaimed(i, l) => !(i == id && l == lease)
    case Reclaim(now) => now < deadline
    case Restart => false
    case _ => true
  }

  /** A claim belongs to its holder until the deadline: whatever else runs, it stays held. */
  lemma {:induction false} ClaimLasts(w: World, ops: seq<Op>, id: string, lease: string, deadline: int)
    requires Held(w.rows, id, lease) && w.rows[id].nextAt >= deadline
    requires forall i :: 0 <= i < |ops| ==> Spares(ops[i], id, lease, deadline)
    ensures Held(Run(w, ops).rows, id, lease) && Run(w, ops).rows[id].nextAt >= deadline
    decreases |ops|
  {
    if ops != [] {
      assert Spares(ops[0], id, lease, deadline);
      ClaimLasts(Step(w, ops[0]), ops[1..], id, lease, deadline);
    }
  }

  // ----- what is kept, and until when ------------------------------------------------------

  /** The row carries the item as it was published at `now`. */
  predicate Carries(rows: Rows, item: Item, now: int) {
    && item.id in rows && rows[item.id].key == item.key && rows[item.id].topic == item.topic
    && rows[item.id].payload == item.payload && rows[item.id].createdAt == now
  }

  lemma {:induction false} CarriedOn(w: World, ops: seq<Op>, item: Item, now: int)
    requires Carries(w.rows, item, now)
    ensures Carries(Run(w, ops).rows, item, now)
    decreases |ops|
  {
    if ops != [] {
      RowsPersist(w.rows, ops[0], item.id);
      CarriedOn(Step(w, ops[0]), ops[1..], item, now);
    }
  }

  /** A published message is ready at once, not yet attempted, and carried unchanged by every run. */
  lemma PublishedIsKept(w: World, item: Item, now: int, ops: seq<Op>)
    requires item.id !in w.rows && !KeyTaken(w.rows, item.key)
    ensures var rows := Apply(w.rows, Enqueue(item, now));
      item.id in rows && Ready(rows[item.id], now) && rows[item.id].attempts == 0 && rows[item.id].lease.None?
    ensures Carries(Run(Step(w, Enqueue(item, now)), ops).rows, item, now)
  {
    CarriedOn(Step(w, Enqueue(item, now)), ops, item, now);
  }

  /** A failed attempt that is not the last makes the message wait, for as long as its attempts say,
      and one that is the last ends it. */
  lemma FailureWaits(rows: Rows, id: string, lease: string, maxAttempts: int, now: int, later: int)
    requires Held(rows, id, lease)
    ensures var seen := rows[id].attempts;
      var rows' := Apply(rows, Fail(id, lease, seen, maxAttempts, now));
      && id in rows' && rows'[id].attempts == seen
      && (rows'[id].status == Failed <==> maxAttempts <= seen)
      && (seen < maxAttempts ==>
            (Ready(rows'[id], later) <==> now + Backoff(seen) * 1_000_000_000 <= later))
  {
  }
}
