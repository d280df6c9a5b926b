/** The calls of src/db.rs that change one shard's `messages` table, on a table that changes in
    place. `world` carries the history of the table beside its rows, so that what holds after
    every run of statements holds after every sequence of calls. */
module MessageTable {
  import opened Wrappers
  import opened MessageStore

  class MessageTable {
    var rows: Rows
    ghost var world: World

    ghost predicate Valid()
      reads this
    {
      world.rows == rows && Sound(world)
    }

    constructor ()
      ensures Valid() && world == EMPTY
    {
      rows, world := map[], EMPTY;
    }

    /** One statement. */
    method Execute(op: Op)
      requires Valid() && Possible(world, op)
      modifies this
      ensures Valid() && world == Step(old(world), op) && rows == Apply(old(rows), op)
    {
      StepSound(world, op);
      rows := Apply(rows, op);
      world := Step(world, op);
    }

    /** Statements of other connections between two statements of one call. */
    method Interleave(ops: seq<Op>)
      requires Valid() && PossibleRun(world, ops)
      modifies this
      ensures Valid() && world == Run(old(world), ops)
    {
      var i := 0;
      while i < |ops|
        invariant i <= |ops| && Valid()
        invariant PossibleRun(world, ops[i..]) && Run(world, ops[i..]) == Run(old(world), ops)
      {
        assert ops[i..][1..] == ops[i + 1..];
        Execute(ops[i]);
        i := i + 1;
      }
    }

    method Insert(item: Item, now: int) returns (inserted: bool)
      requires Valid()
      modifies this
      ensures Valid() && world == Step(old(world), Enqueue(item, now))
      ensures inserted <==> item.id !in old(rows) && !KeyTaken(old(rows), item.key)
      ensures inserted ==>
        rows == old(rows)[item.id := Row(item.key, item.topic, item.payload, Pending, 0, now, now, None)]
      ensures !inserted ==> rows == old(rows)
    {
      inserted := !Conflicts(rows, item);
      Execute(Enqueue(item, now));
    }

    /** Claims the message an earlier select found, if it is still pending; whether it is still
        due is not looked at again. */
    method FinishClaim(found: Option<string>, lease: string, until: int) returns (claimed: bool)
      requires Valid() && lease !in world.used
      modifies this
      ensures Valid()
      ensures claimed <==> found.Some? && found.value in old(rows) && old(rows)[found.value].status.Pending?
      ensures claimed ==>
        && Held(rows, found.value, lease)
        && var r := old(rows)[found.value];
           rows == old(rows)[found.value := r.(status := Processing, attempts := r.attempts + 1,
                                               lease := Some(lease), nextAt := until)]
      ensures !claimed ==> rows == old(rows)
    {
      if found.None? { return false; }
      claimed := found.value in rows && rows[found.value].status.Pending?;
      Execute(Claim({found.value}, lease, until));
    }

    method RenewClaim(id: string, lease: string, now: int, until: int) returns (renewed: bool)
      requires Valid()
      modifies this
      ensures Valid() && world == Step(old(world), Renew(id, lease, now, until))
      ensures renewed <==> Held(old(rows), id, lease) && old(rows)[id].nextAt > now
      ensures renewed ==> Held(rows, id, lease) && rows == old(rows)[id := old(rows)[id].(nextAt := until)]
      ensures !renewed ==> rows == old(rows)
    {
      renewed := Held(rows, id, lease) && rows[id].nextAt > now;
      Execute(Renew(id, lease, now, until));
    }

    method Release(id: string, lease: string, now: int) returns (released: bool)
      requires Valid()
      modifies this
      ensures Valid() && world == Step(old(world), MessageStore.Release(id, lease, now))
      ensures released <==> Held(old(rows), id, lease)
      ensures released ==>
        && rows == old(rows)[id := old(rows)[id].(status := Pending, lease := None, nextAt := now)]
        && Ready(rows[id], now)
      ensures !released ==> rows == old(rows)
    {
      released := Held(rows, id, lease);
      Execute(MessageStore.Release(id, lease, now));
    }

    /** A select and a guarded update, with anything in between. The attempt count acted on is
        that of the row at the time of the update, and the call is refused exactly when the
        lease is no longer held then. */
    method ReportFailure(id: string, lease: string, maxAttempts: int, now: int, between: seq<Op>)
        returns (reported: bool)
      requires Valid() && PossibleRun(world, between)
      modifies this
      ensures Valid()
      ensures reported <==> Held(old(world).rows, id, lease) && Held(Run(old(world), between).rows, id, lease)
      ensures var mid := Run(old(world), between).rows;
        if reported then
          && id in mid
          && var r := mid[id];
             rows == mid[id := r.(status := if r.attempts >= maxAttempts then Failed else Pending, lease := None,
                                  nextAt := now + Backoff(r.attempts) * 1_000_000_000)]
        else rows == if Held(old(world).rows, id, lease) then mid else old(rows)
    {
      hide Sound, PossibleRun, Run, Step;
      if !Held(rows, id, lease) { return false; }
      var seen := rows[id].attempts;
      ghost var start := world;
      Interleave(between);
      reported := Held(rows, id, lease);
      if reported {
        HeldIsUsed(start, id, lease);
        UsedNotDrawn(start, between, lease);
        AttemptsWhileHeld(start, between, id, lease);
      }
      Execute(Fail(id, lease, seen, maxAttempts, now));
    }

    method DropClaim(id: string, lease: string, between: seq<Op>) returns (dropped: bool)
      requires Valid() && PossibleRun(world, between)
      modifies this
      ensures Valid()
      ensures dropped <==> Held(old(world).rows, id, lease) && Held(Run(old(world), between).rows, id, lease)
      ensures var mid := Run(old(world), between).rows;
        if dropped then id in mid && rows == mid[id := mid[id].(status := Dropped, lease := None)]
        else rows == if Held(old(world).rows, id, lease) then mid else old(rows)
    {
      if !Held(rows, id, lease) { return false; }
      Interleave(between);
      dropped := Held(rows, id, lease);
      Execute(DropClaimed(id, lease));
    }

    method DropWaiting(topic: string) returns (dropped: nat)
      requires Valid()
      modifies this
      ensures Valid() && world == Step(old(world), DropPending(topic))
      ensures dropped == |Waiting(old(rows), topic)| && Waiting(rows, topic) == {}
      ensures rows.Keys == old(rows).Keys
      ensures forall id :: id in rows ==>
        rows[id] == if old(rows)[id].topic == topic && old(rows)[id].status == Pending
                    then old(rows)[id].(status := Dropped, lease := None) else old(rows)[id]
    {
      dropped := |Waiting(rows, topic)|;
      Execute(DropPending(topic));
    }

    /** After it no claim is past its time: what was overdue is ready again, with its attempts and
        its data as they were, and nothing else changed. */
    method ReclaimStale(now: int) returns (reclaimed: nat)
      requires Valid()
      modifies this
      ensures Valid() && world == Step(old(world), Reclaim(now))
      ensures reclaimed == |Overdue(old(rows), now)| && Overdue(rows, now) == {}
      ensures rows.Keys == old(rows).Keys
      ensures forall id :: id in rows ==>
        rows[id] == if old(rows)[id].status == Processing && old(rows)[id].nextAt <= now
                    then old(rows)[id].(status := Pending, lease := None) else old(rows)[id]
      ensures forall id :: id in Overdue(old(rows), now) ==> Ready(rows[id], now)
    {
      reclaimed := |Overdue(rows, now)|;
      Execute(Reclaim(now));
    }

    /** The start of the broker: nothing is claimed, and what was waits again. */
    method Reopen()
      requires Valid()
      modifies this
      ensures Valid() && world == Step(old(world), Restart)
      ensures rows.Keys == old(rows).Keys
      ensures forall id :: id in rows ==> !rows[id].status.Processing? && rows[id].lease.None?
      ensures forall id :: id in rows ==>
        rows[id] == if old(rows)[id].status == Processing then old(rows)[id].(status := Pending, lease := None)
                    else old(rows)[id]
    {
      Execute(Restart);
      forall id | id in rows ensures !rows[id].status.Processing? && rows[id].lease.None? {
        assert RowOk(world, id);
      }
    }
  }

  function Waiting(rows: Rows, topic: string): set<string> {
    set id | id in rows && rows[id].topic == topic && rows[id].status.Pending?
  }

  function Overdue(rows: Rows, now: int): set<string> {
    set id | id in rows && rows[id].status.Processing? && rows[id].nextAt <= now
  }
}
