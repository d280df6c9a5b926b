/** A batch of delivery records for any ids (`delivered_batch` in src/db.rs), such as the writer of
    the first shard issues: it also gets the records for ids that name no shard, which are looked
    up in all of them. */
module AckBatch {
  import opened Wrappers
  import opened Sharding
  import opened MessageStore
  import opened Batching
  import opened QueueBatch

  predicate OnlyAcks(cmds: seq<Command>) { forall i :: 0 <= i < |cmds| ==> cmds[i].Ack? }

  /** The record is the first of its kind in the batch, and its lease holds the message. */
  predicate Takes(shards: seq<Rows>, cmds: seq<Command>, i: nat)
    requires |shards| == SHARDS && OnlyAcks(cmds) && i < |cmds|
  {
    var c := cmds[i];
    Held(shards[ShardOf(shards, c)], c.id, c.lease) && c !in cmds[..i]
  }

  lemma HeldAfterAck(rows: Rows, c: Command, id: string, lease: string)
    requires c.Ack?
    ensures Held(Serve(rows, c).0, id, lease) <==> Held(rows, id, lease) && c != Ack(id, lease)
  {
  }

  /** A lease holds its message until its own record comes. */
  lemma {:induction false} HeldAfterAcks(shards: seq<Rows>, cmds: seq<Command>, id: string, lease: string)
    requires |shards| == SHARDS && OnlyAcks(cmds)
    ensures var k := ShardOf(shards, Ack(id, lease));
      Held(InOrder(shards, Entries(cmds), Route(shards), Serve).0[k], id, lease)
      <==> Held(shards[k], id, lease) && Ack(id, lease) !in cmds
  {
    hide ShardOf, Serve, Held;
    if cmds == [] {
      assert Entries(cmds) == [];
    } else {
      var init, last := cmds[..|cmds| - 1], cmds[|cmds| - 1];
      HeldAfterAcks(shards, init, id, lease);
      assert cmds == init + [last];
      assert Entries(cmds)[..|init|] == Entries(init);
      HeldAfterAck(InOrder(shards, Entries(init), Route(shards), Serve).0[ShardOf(shards, last)], last, id, lease);
    }
  }

  /** Each record is answered true if and only if it takes. */
  lemma {:induction false} AcksAnswered(shards: seq<Rows>, cmds: seq<Command>, i: nat)
    requires |shards| == SHARDS && OnlyAcks(cmds) && i < |cmds|
    ensures var replies := InOrder(shards, Entries(cmds), Route(shards), Serve).1;
      i in replies && replies[i] == Acked(Takes(shards, cmds, i))
  {
    hide ShardOf, Held;
    var init, last := cmds[..|cmds| - 1], cmds[|cmds| - 1];
    assert Entries(cmds)[..|init|] == Entries(init);
    if i < |init| {
      AcksAnswered(shards, init, i);
      assert init[..i] == cmds[..i];
    } else {
      HeldAfterAcks(shards, init, last.id, last.lease);
    }
  }

  lemma AcksNeverConflict(shards: seq<Rows>, cmds: seq<Command>)
    requires |shards| == SHARDS && OnlyAcks(cmds)
    ensures !HasConflict(OneByOne(shards, cmds).1)
  {
    InOrderKeys(shards, Entries(cmds), Route(shards), Serve);
    hide InOrder, Takes;
    forall n | n in OneByOne(shards, cmds).1 ensures !OneByOne(shards, cmds).1[n].Conflict? {
      assert n in Indices(Entries(cmds));
      AcksAnswered(shards, cmds, n);
    }
  }

  /** Every caller is told whether its record took; or, a shard having failed, all are told so, and
      exactly the records of the shards before that one were kept. */
  method RecordAll(db: Database, cmds: seq<Command>, broken: set<nat>)
    returns (failed: Option<nat>, answers: seq<bool>)
    requires db.Valid() && OnlyAcks(cmds)
    modifies db
    ensures db.Valid()
    ensures failed.None? ==> db.shards == OneByOne(old(db.shards), cmds).0
    ensures failed.None? ==>
      |answers| == |cmds| && forall i :: 0 <= i < |cmds| ==> (answers[i] <==> Takes(old(db.shards), cmds, i))
    ensures failed.Some? ==> failed.value in broken && Concerns(old(db.shards), cmds, failed.value)
    ensures failed.Some? ==>
      CommittedBelow(old(db.shards), OneByOne(old(db.shards), cmds).0, db.shards, failed.value)
  {
    ghost var before := db.shards;
    AcksNeverConflict(before, cmds);
    forall i | 0 <= i < |cmds|
      ensures var goal := OneByOne(before, cmds).1; i in goal && goal[i] == Acked(Takes(before, cmds, i))
    {
      AcksAnswered(before, cmds, i);
    }
    hide OneByOne, Takes, HasConflict, Concerns, CommittedBelow, AllNowhere, Select, AllKeysUnique, Entries, Route;
    var r := db.Batch(cmds, broken);
    match r {
      case Err(f) =>
        return Some(f), [];
      case Ok(replies) =>
        failed, answers := None, seq(|cmds|, i requires 0 <= i < |cmds| => replies[i].ok);
    }
  }
}
