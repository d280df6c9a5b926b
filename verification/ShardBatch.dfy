/** A batch whose commands all belong to one shard, as a shard's writer issues them: however the
    database fails, it is one transaction (src/db.rs, src/writer.rs). */
module ShardBatch {
  import opened Wrappers
  import opened Sharding
  import opened MessageStore
  import opened Batching
  import opened QueueBatch

  /** What `enqueue` and `delivered` put on the channel of writer `k`: publishes to topics of the
      shard, and records for ids that name the shard. */
  predicate Home(c: Command, k: nat) {
    match c
    case Put(item, _) => TopicShard(item.topic) == k
    case Ack(id, _) => MessageIdShard(id) == Some(k)
  }

  predicate AllHome(es: seq<(nat, Command)>, k: nat) { forall i :: 0 <= i < |es| ==> Home(es[i].1, k) }

  /** The id made for a publish names its home, so its delivery record goes there too. */
  lemma IdsComeHome(topic: string, uuid: string, lease: string, item: Item, now: int, k: nat)
    requires item.topic == topic && Home(Put(item, now), k)
    ensures Home(Ack(NewMessageId(topic, uuid), lease), k)
  {
    IdRoutesToTopicShard(topic, uuid);
  }

  function Commands(es: seq<(nat, Command)>): (cmds: seq<Command>)
    ensures |cmds| == |es| && forall i :: 0 <= i < |es| ==> cmds[i] == es[i].1
  {
    seq(|es|, i requires 0 <= i < |es| => es[i].1)
  }

  lemma HomeShard(shards: seq<Rows>, c: Command, k: nat)
    requires |shards| == SHARDS && Home(c, k)
    ensures ShardOf(shards, c) == k < SHARDS
  {
  }

  lemma {:induction false} SelectHome(es: seq<(nat, Command)>, route: Command -> nat, k: nat, j: nat)
    requires forall i :: 0 <= i < |es| ==> route(es[i].1) == k
    ensures Select(es, route, j) == if j == k then es else []
  {
    if es != [] {
      SelectHome(es[..|es| - 1], route, k, j);
      assert es == es[..|es| - 1] + [es[|es| - 1]];
    }
  }

  /** The whole batch is the group of its shard, and every other group is empty. */
  lemma HomeGroups(shards: seq<Rows>, cmds: seq<Command>, k: nat, j: nat)
    requires |shards| == SHARDS && forall i :: 0 <= i < |cmds| ==> Home(cmds[i], k)
    ensures Select(Entries(cmds), Route(shards), j) == if j == k then Entries(cmds) else []
  {
    forall i | 0 <= i < |cmds| ensures Route(shards)(Entries(cmds)[i].1) == k {
      HomeShard(shards, cmds[i], k);
    }
    SelectHome(Entries(cmds), Route(shards), k, j);
  }

  lemma HomeRows(shards: seq<Rows>, cmds: seq<Command>, k: nat, j: nat)
    requires |shards| == SHARDS && k < SHARDS && j < SHARDS && forall i :: 0 <= i < |cmds| ==> Home(cmds[i], k)
    ensures OneByOne(shards, cmds).0[j] == if j == k then Exec(shards[k], Entries(cmds), Serve).0 else shards[j]
  {
    HomeGroups(shards, cmds, k, j);
    ShardOfBatch(shards, cmds, j);
  }

  /** One by one over all shards is one by one on the shard. */
  lemma HomeRun(shards: seq<Rows>, cmds: seq<Command>, k: nat)
    requires |shards| == SHARDS && k < SHARDS && forall i :: 0 <= i < |cmds| ==> Home(cmds[i], k)
    ensures var own := Exec(shards[k], Entries(cmds), Serve);
      OneByOne(shards, cmds) == (shards[k := own.0], own.1)
  {
    hide Serve, Exec, Entries, Home, Select;
    var own, all := Exec(shards[k], Entries(cmds), Serve), OneByOne(shards, cmds);
    forall j | 0 <= j < SHARDS ensures all.0[j] == shards[k := own.0][j] { HomeRows(shards, cmds, k, j); }
    HomeGroups(shards, cmds, k, k);
    ShardOfBatch(shards, cmds, k);
    ExecKeys(shards[k], Entries(cmds), Serve);
    RepliesKeys(shards, cmds);
    hide OneByOne;
    assert all.0 == shards[k := own.0];
    assert own.1 == all.1;
  }

  lemma RepliesKeys(shards: seq<Rows>, cmds: seq<Command>)
    requires |shards| == SHARDS
    ensures OneByOne(shards, cmds).1.Keys == Indices(Entries(cmds))
  {
    InOrderKeys(shards, Entries(cmds), Route(shards), Serve);
  }

  /** The same replies under other indices. */
  ghost predicate SameReplies(es: seq<(nat, Command)>, own: map<nat, Reply>, plain: map<nat, Reply>) {
    forall j :: 0 <= j < |es| ==> es[j].0 in own && j in plain && own[es[j].0] == plain[j]
  }

  lemma SameRepliesStep(init: seq<(nat, Command)>, last: (nat, Command), own: map<nat, Reply>,
                        plain: map<nat, Reply>, reply: Reply)
    requires IndicesDiffer(init + [last]) && SameReplies(init, own, plain)
    ensures SameReplies(init + [last], own[last.0 := reply], plain[|init| := reply])
  {
    var es := init + [last];
    forall j | 0 <= j < |init| ensures es[j] == init[j] && es[j].0 != last.0 {
      assert es[j].0 != es[|init|].0;
    }
  }

  /** A list of commands does the same under any indices. */
  ghost predicate SameRun(rows: Rows, es: seq<(nat, Command)>) {
    var own, plain := Exec(rows, es, Serve), Exec(rows, Entries(Commands(es)), Serve);
    own.0 == plain.0 && own.1.Keys == Indices(es) && SameReplies(es, own.1, plain.1)
  }

  lemma EntriesSnoc(init: seq<(nat, Command)>, last: (nat, Command))
    ensures Entries(Commands(init + [last])) == Entries(Commands(init)) + [(|init|, last.1)]
  {
  }

  lemma SameRunStep(rows: Rows, init: seq<(nat, Command)>, last: (nat, Command))
    requires IndicesDiffer(init + [last]) && SameRun(rows, init)
    ensures SameRun(rows, init + [last])
  {
    hide Exec, Serve, SameReplies, Entries, IndicesDiffer, Indices;
    ExecKeys(rows, init + [last], Serve);
    EntriesSnoc(init, last);
    ExecSnoc(rows, init, last);
    ExecSnoc(rows, Entries(Commands(init)), (|init|, last.1));
    var own, plain := Exec(rows, init, Serve), Exec(rows, Entries(Commands(init)), Serve);
    SameRepliesStep(init, last, own.1, plain.1, Serve(own.0, last.1).1);
  }

  lemma {:induction false} Reindex(rows: Rows, es: seq<(nat, Command)>)
    requires IndicesDiffer(es)
    ensures SameRun(rows, es)
  {
    if es == [] {
      assert Entries(Commands(es)) == [];
    } else {
      var init, last := es[..|es| - 1], es[|es| - 1];
      Reindex(rows, init);
      hide SameRun;
      assert es == init + [last];
      SameRunStep(rows, init, last);
    }
  }

  function Scatter(es: seq<(nat, Command)>, replies: seq<Reply>): map<nat, Reply>
    requires |replies| == |es| && IndicesDiffer(es)
  {
    map j | 0 <= j < |es| :: es[j].0 := replies[j]
  }

  lemma ScatterIsExec(rows: Rows, es: seq<(nat, Command)>, replies: seq<Reply>)
    requires IndicesDiffer(es) && |replies| == |es|
    requires Answers(replies, Commands(es), Exec(rows, Entries(Commands(es)), Serve).1)
    ensures Scatter(es, replies) == Exec(rows, es, Serve).1
  {
    hide Exec, Serve, Entries, IndicesDiffer;
    Reindex(rows, es);
    var own := Exec(rows, es, Serve).1;
    forall n | n in own ensures n in Scatter(es, replies) && Scatter(es, replies)[n] == own[n] {
      var j :| 0 <= j < |es| && es[j].0 == n;
    }
  }

  lemma NoConflictEither(rows: Rows, es: seq<(nat, Command)>)
    requires IndicesDiffer(es) && !HasConflict(Exec(rows, es, Serve).1)
    ensures !HasConflict(Exec(rows, Entries(Commands(es)), Serve).1)
  {
    Reindex(rows, es);
    ExecKeys(rows, Entries(Commands(es)), Serve);
    var plain := Exec(rows, Entries(Commands(es)), Serve).1;
    hide Exec, Serve;
    forall n | n in plain ensures !plain[n].Conflict? {
      assert n in Indices(Entries(Commands(es)));
      assert 0 <= n < |es| && es[n].0 in Exec(rows, es, Serve).1;
    }
  }

  /** A failed batch of one shard changed nothing, and it was that shard that failed. */
  lemma HomeFailure(before: seq<Rows>, cmds: seq<Command>, after: seq<Rows>, f: nat, k: nat)
    requires |before| == SHARDS && forall i :: 0 <= i < |cmds| ==> Home(cmds[i], k)
    requires Concerns(before, cmds, f) && CommittedBelow(before, OneByOne(before, cmds).0, after, f)
    ensures f == k && after == before
  {
    forall i | 0 <= i < |cmds| ensures ShardOf(before, cmds[i]) == k { HomeShard(before, cmds[i], k); }
    OneShardAtomic(before, cmds, after, f);
  }

  /** One attempt of the writer of shard `k`: the batch goes to the database, whose shards in
      `broken` fail. It takes effect as a whole, or not at all and because the shard is broken. */
  method Attempt(db: Database, k: nat, es: seq<(nat, Command)>, broken: set<nat>)
    returns (ok: bool, told: map<nat, Reply>)
    requires db.Valid() && k < SHARDS && AllHome(es, k) && IndicesDiffer(es)
    requires !HasConflict(Exec(db.shards[k], es, Serve).1)
    modifies db
    ensures db.Valid()
    ensures ok ==> db.shards == old(db.shards)[k := Exec(old(db.shards)[k], es, Serve).0]
    ensures ok ==> told == Exec(old(db.shards)[k], es, Serve).1
    ensures !ok ==> db.shards == old(db.shards) && k in broken
  {
    ghost var before := db.shards;
    var cmds := Commands(es);
    assert forall i :: 0 <= i < |cmds| ==> Home(cmds[i], k);
    HomeRun(before, cmds, k);
    Reindex(before[k], es);
    NoConflictEither(before[k], es);
    hide Exec, Serve, OneByOne, Entries, Home, Concerns, AllNowhere, Select, Scatter, HasConflict, AllKeysUnique,
      IndicesDiffer;
    var r := db.Batch(cmds, broken);
    match r {
      case Ok(replies) =>
        ScatterIsExec(before[k], es, replies);
        ok, told := true, Scatter(es, replies);
      case Err(f) =>
        HomeFailure(before, cmds, db.shards, f, k);
        ok, told := false, map[];
    }
  }

  // ----- why one shard ---------------------------------------------------------------------

  lemma {:induction false} SelectEntry(es: seq<(nat, Command)>, route: Command -> nat, k: nat, i: nat)
    returns (j: nat)
    requires i < |es| && route(es[i].1) == k
    ensures j < |Select(es, route, k)| && Select(es, route, k)[j] == es[i]
  {
    var init := es[..|es| - 1];
    if i < |init| {
      j := SelectEntry(init, route, k, i);
    } else {
      j := |Select(init, route, k)|;
    }
  }

  lemma {:induction false} IdsRemain(rows: Rows, es: seq<(nat, Command)>, id: string)
    requires id in rows
    ensures id in Exec(rows, es, Serve).0
  {
    if es != [] { IdsRemain(rows, es[..|es| - 1], id); }
  }

  /** A publish without a key whose id is already in the table is refused. */
  lemma {:induction false} StoredIsRefused(rows: Rows, es: seq<(nat, Command)>, j: nat)
    requires IndicesDiffer(es) && j < |es| && es[j].1.Put? && es[j].1.item.key.None? && es[j].1.item.id in rows
    ensures es[j].0 in Exec(rows, es, Serve).1 && Exec(rows, es, Serve).1[es[j].0] == Conflict
  {
    var init := es[..|es| - 1];
    if j < |init| {
      StoredIsRefused(rows, init, j);
      assert es[j].0 != es[|es| - 1].0;
    } else {
      IdsRemain(rows, init, es[j].1.item.id);
    }
  }

  /** Once part of a batch is in, because it spanned several shards and failed on a later one, a
      publish without a key among that part makes every further attempt fail, whatever the
      database does: only batches of one shard can be retried until they succeed. */
  lemma PartialBatchIsStuck(shards: seq<Rows>, cmds: seq<Command>, i: nat)
    requires |shards| == SHARDS && i < |cmds| && cmds[i].Put? && cmds[i].item.key.None?
    requires cmds[i].item.id in shards[ShardOf(shards, cmds[i])]
    ensures HasConflict(OneByOne(shards, cmds).1)
  {
    var k, es := ShardOf(shards, cmds[i]), Entries(cmds);
    ShardOfBatch(shards, cmds, k);
    var group := Select(es, Route(shards), k);
    var j := SelectEntry(es, Route(shards), k, i);
    StoredIsRefused(shards[k], group, j);
    hide OneByOne, Exec;
    assert group[j].0 in OneByOne(shards, cmds).1;
  }
}
