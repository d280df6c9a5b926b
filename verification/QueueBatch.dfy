/** Batched writes to the sixteen shards (`enqueue_batch` and `delivered_batch` in src/db.rs) and
    the order in which the writer issues them (src/writer.rs). A command publishes one message
    or records one delivery. */
module QueueBatch {
  import opened Wrappers
  import opened Sharding
  import opened MessageStore
  import opened Batching

  datatype Command =
    | Put(item: Item, now: int)
    | Ack(id: string, lease: string)

  /** `Conflict` is the error of an insert ignored for its id alone. */
  datatype Reply = Accepted(id: string) | Duplicate(id: string) | Conflict | Acked(ok: bool)

  // ----- one command -----------------------------------------------------------------------

  ghost function KeyOwner(rows: Rows, key: Option<string>): string
    requires KeyTaken(rows, key)
  {
    var id :| id in rows && rows[id].key == key; id
  }

  ghost function PutReply(rows: Rows, item: Item): Reply {
    if !Conflicts(rows, item) then Accepted(item.id)
    else if KeyTaken(rows, item.key) then Duplicate(KeyOwner(rows, item.key))
    else Conflict
  }

  ghost function Serve(rows: Rows, c: Command): (Rows, Reply) {
    match c
    case Put(item, now) => (Apply(rows, Enqueue(item, now)), PutReply(rows, item))
    case Ack(id, lease) => (Apply(rows, Deliver(id, lease)), Acked(Held(rows, id, lease)))
  }

  /** What a command does to the rows and is answered: an accepted publish is stored as it came,
      one whose key is taken is told the id that has it, one whose id alone is taken is refused,
      and a record under a lease that holds its message marks it delivered. */
  lemma ServeMeans(rows: Rows, c: Command)
    ensures var (rows', reply) := Serve(rows, c);
      match c
      case Put(item, now) =>
        if KeyTaken(rows, item.key) then
          rows' == rows && reply.Duplicate? && reply.id in rows && rows[reply.id].key == item.key
        else if item.id in rows then rows' == rows && reply == Conflict
        else
          && rows' == rows[item.id := Row(item.key, item.topic, item.payload, Pending, 0, now, now, None)]
          && reply == Accepted(item.id)
      case Ack(id, lease) =>
        if id in rows && rows[id].status == Processing && rows[id].lease == Some(lease) then
          rows' == rows[id := rows[id].(status := Delivered, lease := None)] && reply == Acked(true)
        else rows' == rows && reply == Acked(false)
  {
  }

  lemma OwnerUnique(rows: Rows, key: Option<string>, id: string)
    requires KeysUnique(rows) && key.Some? && id in rows && rows[id].key == key
    ensures KeyTaken(rows, key) && KeyOwner(rows, key) == id
  {
    assert KeyTaken(rows, key);
  }

  method ServeOne(rows: Rows, c: Command) returns (rows': Rows, reply: Reply)
    requires KeysUnique(rows)
    ensures (rows', reply) == Serve(rows, c) && KeysUnique(rows')
  {
    match c {
      case Put(item, now) =>
        KeysStay(rows, Enqueue(item, now));
        if !Conflicts(rows, item) {
          rows', reply := rows[item.id := NewRow(item, now)], Accepted(item.id);
        } else if KeyTaken(rows, item.key) {
          var owner :| owner in rows && rows[owner].key == item.key;
          OwnerUnique(rows, item.key, owner);
          rows', reply := rows, Duplicate(owner);
        } else {
          rows', reply := rows, Conflict;
        }
      case Ack(id, lease) =>
        KeysStay(rows, Deliver(id, lease));
        reply := Acked(Held(rows, id, lease));
        rows' := if Held(rows, id, lease) then rows[id := Closed(rows[id], Delivered)] else rows;
    }
  }

  // ----- routing ---------------------------------------------------------------------------

  /** The first shard that holds the id, or the number of shards. */
  function FindShard(shards: seq<Rows>, id: string): (k: nat)
    ensures k <= |shards|
    ensures k < |shards| ==> id in shards[k]
    ensures forall i :: 0 <= i < k ==> id !in shards[i]
  {
    if shards == [] || id in shards[0] then 0 else 1 + FindShard(shards[1..], id)
  }

  /** The shard of a command (`shard_index_for_id` for a delivery record). A record for an id that
      no shard holds is refused by any of them; it is filed under the first. */
  function ShardOf(shards: seq<Rows>, c: Command): (k: nat)
    requires |shards| == SHARDS
    ensures k < SHARDS
  {
    match c
    case Put(item, _) => TopicShard(item.topic)
    case Ack(id, _) =>
      if MessageIdShard(id).Some? then MessageIdShard(id).value
      else if FindShard(shards, id) < SHARDS then FindShard(shards, id)
      else 0
  }

  ghost function Route(shards: seq<Rows>): (r: Command -> nat)
    requires |shards| == SHARDS
    ensures forall c :: r(c) == ShardOf(shards, c) < SHARDS
  {
    c => ShardOf(shards, c)
  }

  function Entries(cmds: seq<Command>): (es: seq<(nat, Command)>)
    ensures |es| == |cmds| && forall i :: 0 <= i < |es| ==> es[i] == (i, cmds[i])
    ensures IndicesDiffer(es)
  {
    seq(|cmds|, i requires 0 <= i < |cmds| => (i, cmds[i]))
  }

  predicate AllKeysUnique(shards: seq<Rows>) {
    forall k :: 0 <= k < |shards| ==> KeysUnique(shards[k])
  }

  /** What the commands do when they run one by one, in order. */
  ghost function OneByOne(shards: seq<Rows>, cmds: seq<Command>): (r: (seq<Rows>, map<nat, Reply>))
    requires |shards| == SHARDS
    ensures |r.0| == SHARDS
  {
    InOrder(shards, Entries(cmds), Route(shards), Serve)
  }

  // ----- the batch -------------------------------------------------------------------------

  datatype Outcome = Ok(replies: seq<Reply>) | Err(shard: nat)

  /** The table after the shards below `f` were committed and no other. */
  ghost predicate CommittedBelow(before: seq<Rows>, goal: seq<Rows>, after: seq<Rows>, f: nat) {
    && |before| == |goal| == |after|
    && forall k :: 0 <= k < |after| ==> after[k] == if k < f then goal[k] else before[k]
  }

  predicate HasConflict(replies: map<nat, Reply>) {
    exists n :: n in replies && replies[n].Conflict?
  }

  predicate Agrees(part: map<nat, Reply>, whole: map<nat, Reply>) {
    forall n :: n in part ==> n in whole && part[n] == whole[n]
  }

  /** The replies of a batch, scattered by index. */
  predicate Answers(replies: seq<Reply>, cmds: seq<Command>, goal: map<nat, Reply>) {
    |replies| == |cmds| && forall i :: 0 <= i < |cmds| ==> i in goal && replies[i] == goal[i]
  }

  /** Some command of the batch belongs to shard `k`. */
  predicate Concerns(shards: seq<Rows>, cmds: seq<Command>, k: nat)
    requires |shards| == SHARDS
  {
    exists i :: 0 <= i < |cmds| && ShardOf(shards, cmds[i]) == k
  }

  /** A record for an id that no shard holds, which takes part in no transaction. */
  predicate Nowhere(shards: seq<Rows>, c: Command)
    requires |shards| == SHARDS
  {
    c.Ack? && MessageIdShard(c.id).None? && FindShard(shards, c.id) == SHARDS
  }

  predicate AllNowhere(shards: seq<Rows>, group: seq<(nat, Command)>)
    requires |shards| == SHARDS
  {
    forall i :: 0 <= i < |group| ==> Nowhere(shards, group[i].1)
  }

  function Refusals(group: seq<(nat, Command)>): map<nat, Reply> {
    map n | n in Indices(group) :: Acked(false)
  }

  lemma {:induction false} NowhereIsRefused(shards: seq<Rows>, k: nat, group: seq<(nat, Command)>)
    requires |shards| == SHARDS && k < SHARDS && AllNowhere(shards, group)
    ensures Exec(shards[k], group, Serve) == (shards[k], Refusals(group))
  {
    if group != [] {
      var init, last := group[..|group| - 1], group[|group| - 1];
      NowhereIsRefused(shards, k, init);
      assert Nowhere(shards, last.1) && last.1.id !in shards[k];
      assert group == init + [last];
      IndicesAppend(init, last);
      assert Refusals(group) == Refusals(init)[last.0 := Acked(false)];
    } else {
      assert Refusals(group) == map[];
    }
  }

  /** One shard's transaction: every command of its group, or nothing on an error. */
  method Transact(start: Rows, group: seq<(nat, Command)>)
    returns (ok: bool, rows: Rows, replies: map<nat, Reply>)
    requires KeysUnique(start) && IndicesDiffer(group)
    ensures ok ==> (rows, replies) == Exec(start, group, Serve) && KeysUnique(rows)
    ensures ok <==> !HasConflict(Exec(start, group, Serve).1)
  {
    rows, replies := start, map[];
    for j := 0 to |group|
      invariant (rows, replies) == Exec(start, group[..j], Serve) && KeysUnique(rows)
      invariant !HasConflict(replies)
    {
      var (index, c) := group[j];
      var reply;
      rows, reply := ServeOne(rows, c);
      assert group[..j + 1][..j] == group[..j];
      replies := replies[index := reply];
      if reply.Conflict? {
        ExecPrefix(start, group, j + 1, Serve);
        assert group[j].0 in Exec(start, group, Serve).1;
        return false, rows, replies;
      }
    }
    assert group[..|group|] == group;
    ok := true;
  }

  class Database {
    var shards: seq<Rows>

    ghost predicate Valid()
      reads this
    {
      |shards| == SHARDS && AllKeysUnique(shards)
    }

    /** `shard_index_for_id`: the shard the id names, or else the first one that holds it. */
    method ShardIndexForId(id: string) returns (index: Option<nat>)
      requires Valid()
      ensures index.Some? ==> index.value < SHARDS
      ensures index.None? <==> MessageIdShard(id).None? && forall k :: 0 <= k < SHARDS ==> id !in shards[k]
      ensures forall lease :: ShardOf(shards, Ack(id, lease)) == if index.Some? then index.value else 0
    {
      index := MessageIdShard(id);
      if index.Some? { return; }
      for k := 0 to SHARDS
        invariant forall i :: 0 <= i < k ==> id !in shards[i]
      {
        if id in shards[k] { return Some(k); }
      }
    }

    /** Distributes the commands over the shards they belong to. */
    method Group(cmds: seq<Command>) returns (groups: seq<seq<(nat, Command)>>)
      requires Valid()
      ensures |groups| == SHARDS
      ensures forall k :: 0 <= k < SHARDS ==> groups[k] == Select(Entries(cmds), Route(shards), k)
    {
      groups := seq(SHARDS, _ => []);
      ghost var es := Entries(cmds);
      for index := 0 to |cmds|
        invariant |groups| == SHARDS
        invariant forall k :: 0 <= k < SHARDS ==> groups[k] == Select(es[..index], Route(shards), k)
      {
        var k := ShardOf(shards, cmds[index]);
        assert es[..index + 1][..index] == es[..index];
        groups := groups[k := groups[k] + [(index, cmds[index])]];
      }
      assert es[..|cmds|] == es;
    }

    /** Which groups hold nothing but records for unknown ids. */
    method IdleGroups(groups: seq<seq<(nat, Command)>>) returns (idle: seq<bool>)
      requires Valid() && |groups| == SHARDS
      ensures |idle| == SHARDS && forall k :: 0 <= k < SHARDS ==> (idle[k] <==> AllNowhere(shards, groups[k]))
    {
      hide AllNowhere;
      idle := [];
      for k := 0 to SHARDS
        invariant |idle| == k && forall j :: 0 <= j < k ==> (idle[j] <==> AllNowhere(shards, groups[j]))
      {
        idle := idle + [AllNowhere(shards, groups[k])];
      }
    }

    /** Shard `k`'s part of a batch: skipped if there is nothing to do in it, else one transaction,
        which fails if the shard is broken. */
    method Turn(k: nat, group: seq<(nat, Command)>, idle: bool, broken: bool, ghost before: seq<Rows>,
                ghost cmds: seq<Command>) returns (ok: bool, replies: map<nat, Reply>)
      requires Valid() && |before| == SHARDS && k < SHARDS
      requires group == Select(Entries(cmds), Route(before), k)
      requires CommittedBelow(before, OneByOne(before, cmds).0, shards, k)
      requires idle <==> AllNowhere(before, group)
      modifies this
      ensures Valid()
      ensures CommittedBelow(before, OneByOne(before, cmds).0, shards, if ok then k + 1 else k)
      ensures ok ==> Agrees(replies, OneByOne(before, cmds).1)
      ensures ok ==> forall i :: 0 <= i < |cmds| && ShardOf(before, cmds[i]) == k ==> i in replies
      ensures !ok ==> Concerns(before, cmds, k) && !AllNowhere(before, group)
      ensures !ok ==> broken || HasConflict(OneByOne(before, cmds).1)
      ensures ok && broken ==> idle
      ensures ok ==> !HasConflict(replies)
    {
      hide OneByOne, Select, Exec, ShardOf, KeysUnique, Serve, HasConflict, Concerns, Entries, IndicesDiffer,
        Agrees, Route, AllNowhere, Refusals;
      if idle {
        IdleShard(before, cmds, k);
        assert !HasConflict(Refusals(group)) by { NoneRefusedForId(group); }
        return true, Refusals(group);
      }
      ShardOfBatch(before, cmds, k);
      assert AllNowhere(before, []) by { NothingIsNowhere(before); }
      if broken {
        return false, map[];
      }
      var rows;
      ok, rows, replies := Transact(shards[k], group);
      if ok {
        shards := shards[k := rows];
      }
    }

    /** The turns of the sixteen shards, up to the first that fails. */
    method Turns(groups: seq<seq<(nat, Command)>>, idle: seq<bool>, broken: set<nat>, ghost cmds: seq<Command>)
      returns (failed: Option<nat>, results: map<nat, Reply>)
      requires Valid() && |groups| == |idle| == SHARDS
      requires forall k :: 0 <= k < SHARDS ==> groups[k] == Select(Entries(cmds), Route(shards), k)
      requires forall k :: 0 <= k < SHARDS ==> (idle[k] <==> AllNowhere(shards, groups[k]))
      modifies this
      ensures Valid()
      ensures CommittedBelow(old(shards), OneByOne(old(shards), cmds).0, shards,
                             if failed.Some? then failed.value else SHARDS)
      ensures failed.None? ==> RepliesBelow(old(shards), cmds, results, SHARDS)
      ensures failed.None? ==> forall k :: k in broken && k < SHARDS ==> idle[k]
      ensures failed.Some? ==> failed.value < SHARDS && !idle[failed.value]
      ensures failed.Some? ==> Concerns(old(shards), cmds, failed.value)
      ensures failed.Some? ==> failed.value in broken || HasConflict(OneByOne(old(shards), cmds).1)
    {
      ghost var before := shards;
      assert CommittedBelow(before, OneByOne(before, cmds).0, shards, 0);
      hide OneByOne, Select, ShardOf, KeysUnique, HasConflict, Concerns, Entries, AllNowhere, AllKeysUnique,
        CommittedBelow, RepliesBelow, Agrees, Route;
      results := map[];
      NoReplies(before, cmds);
      for k := 0 to SHARDS
        invariant Valid() && CommittedBelow(before, OneByOne(before, cmds).0, shards, k)
        invariant RepliesBelow(before, cmds, results, k)
        invariant forall j :: j in broken && j < k ==> idle[j]
      {
        var ok, replies := Turn(k, groups[k], idle[k], k in broken, before, cmds);
        if !ok {
          return Some(k), results;
        }
        MoreReplies(before, cmds, results, replies, k);
        results := results + replies;
      }
      failed := None;
    }

    /** A batch, shard by shard. The transactions of the shards in `broken` fail. */
    method Batch(cmds: seq<Command>, broken: set<nat>) returns (r: Outcome)
      requires Valid()
      modifies this
      ensures Valid()
      ensures r.Ok? ==> shards == OneByOne(old(shards), cmds).0
      ensures r.Ok? ==> Answers(r.replies, cmds, OneByOne(old(shards), cmds).1)
      ensures r.Err? ==> CommittedBelow(old(shards), OneByOne(old(shards), cmds).0, shards, r.shard)
      ensures r.Err? ==> Concerns(old(shards), cmds, r.shard)
      ensures r.Err? ==> !AllNowhere(old(shards), Select(Entries(cmds), Route(old(shards)), r.shard))
      ensures r.Err? ==> r.shard in broken || HasConflict(OneByOne(old(shards), cmds).1)
      ensures r.Ok? ==> !HasConflict(OneByOne(old(shards), cmds).1)
      ensures r.Ok? ==> forall k :: k in broken && k < SHARDS ==>
        AllNowhere(old(shards), Select(Entries(cmds), Route(old(shards)), k))
    {
      hide OneByOne, Select, ShardOf, KeysUnique, HasConflict, Concerns, Entries, AllNowhere, AllKeysUnique,
        CommittedBelow, RepliesBelow, Agrees, Answers, Collected, Route;
      ghost var before := shards;
      var groups := Group(cmds);
      var idle := IdleGroups(groups);
      var failed, results := Turns(groups, idle, broken, cmds);
      if failed.Some? {
        return Err(failed.value);
      }
      AllCommitted(before, OneByOne(before, cmds).0, shards);
      AllReplies(before, cmds, results);
      r := Ok(Collected(results, |cmds|));
    }
  }

  // ----- the replies of a batch as its shards have their turns -----------------------------

  /** The replies of the shards below `k`: one for each of their commands, as in the in-order run,
      and no conflict. */
  ghost predicate RepliesBelow(before: seq<Rows>, cmds: seq<Command>, results: map<nat, Reply>, k: nat)
    requires |before| == SHARDS
  {
    && Agrees(results, OneByOne(before, cmds).1) && !HasConflict(results)
    && forall i :: 0 <= i < |cmds| && ShardOf(before, cmds[i]) < k ==> i in results
  }

  lemma NoReplies(before: seq<Rows>, cmds: seq<Command>)
    requires |before| == SHARDS
    ensures RepliesBelow(before, cmds, map[], 0)
  {
    hide OneByOne, ShardOf;
  }

  lemma MoreReplies(before: seq<Rows>, cmds: seq<Command>, results: map<nat, Reply>, replies: map<nat, Reply>,
                    k: nat)
    requires |before| == SHARDS && RepliesBelow(before, cmds, results, k)
    requires Agrees(replies, OneByOne(before, cmds).1) && !HasConflict(replies)
    requires forall i :: 0 <= i < |cmds| && ShardOf(before, cmds[i]) == k ==> i in replies
    ensures RepliesBelow(before, cmds, results + replies, k + 1)
  {
    hide OneByOne, ShardOf;
  }

  lemma AllReplies(before: seq<Rows>, cmds: seq<Command>, results: map<nat, Reply>)
    requires |before| == SHARDS && RepliesBelow(before, cmds, results, SHARDS)
    ensures forall i :: 0 <= i < |cmds| ==> i in results
    ensures Answers(Collected(results, |cmds|), cmds, OneByOne(before, cmds).1)
    ensures !HasConflict(OneByOne(before, cmds).1)
  {
    hide OneByOne, HasConflict;
    forall i | 0 <= i < |cmds| ensures i in results {
      assert ShardOf(before, cmds[i]) < SHARDS;
    }
    NoConflictAll(before, cmds, results);
  }

  /** The replies in the order of the commands. */
  function Collected(results: map<nat, Reply>, n: nat): (replies: seq<Reply>)
    requires forall i :: 0 <= i < n ==> i in results
    ensures |replies| == n && forall i :: 0 <= i < n ==> replies[i] == results[i]
  {
    seq(n, i requires 0 <= i < n => results[i])
  }

  lemma NoneRefusedForId(group: seq<(nat, Command)>)
    ensures !HasConflict(Refusals(group))
  {
  }

  lemma NoConflictAll(before: seq<Rows>, cmds: seq<Command>, results: map<nat, Reply>)
    requires |before| == SHARDS && Agrees(results, OneByOne(before, cmds).1) && !HasConflict(results)
    requires forall i :: 0 <= i < |cmds| ==> i in results
    ensures !HasConflict(OneByOne(before, cmds).1)
  {
    InOrderKeys(before, Entries(cmds), Route(before), Serve);
    hide InOrder;
    var goal := OneByOne(before, cmds).1;
    forall n | n in goal ensures !goal[n].Conflict? {
      assert n in Indices(Entries(cmds));
      assert n in results;
    }
  }

  lemma AllCommitted(before: seq<Rows>, goal: seq<Rows>, after: seq<Rows>)
    requires CommittedBelow(before, goal, after, |before|)
    ensures after == goal
  {
  }

  /** What one shard contributes to the in-order run. */
  lemma ShardOfBatch(before: seq<Rows>, cmds: seq<Command>, k: nat)
    requires |before| == SHARDS && k < SHARDS
    ensures var group := Select(Entries(cmds), Route(before), k);
      var own, goal := Exec(before[k], group, Serve), OneByOne(before, cmds);
      && IndicesDiffer(group) && goal.0[k] == own.0 && Agrees(own.1, goal.1)
      && (forall i :: 0 <= i < |cmds| && ShardOf(before, cmds[i]) == k ==> i in own.1)
      && (HasConflict(own.1) ==> HasConflict(goal.1))
      && (group == [] ==> own.0 == before[k] && own.1 == map[])
      && (group != [] ==> Concerns(before, cmds, k))
  {
    var es, route := Entries(cmds), Route(before);
    var group := Select(es, route, k);
    ShardsIndependent(before, es, route, Serve, k);
    SelectDistinct(es, route, k);
    SelectMembers(es, route, k);
    ExecKeys(before[k], group, Serve);
    if group != [] { SomeCommand(cmds, route, k); }
    forall i | 0 <= i < |cmds| && ShardOf(before, cmds[i]) == k
      ensures i in Exec(before[k], group, Serve).1
    {
      assert es[i].0 in Indices(group);
    }
  }

  /** A shard with nothing but records for unknown ids stays as it is. */
  lemma IdleShard(before: seq<Rows>, cmds: seq<Command>, k: nat)
    requires |before| == SHARDS && k < SHARDS
    requires AllNowhere(before, Select(Entries(cmds), Route(before), k))
    ensures var group := Select(Entries(cmds), Route(before), k);
      var goal := OneByOne(before, cmds);
      && goal.0[k] == before[k] && Agrees(Refusals(group), goal.1)
      && (forall i :: 0 <= i < |cmds| && ShardOf(before, cmds[i]) == k ==> i in Refusals(group))
  {
    hide OneByOne, Select, Exec, ShardOf, Entries, IndicesDiffer, Agrees, AllNowhere, Refusals, HasConflict, Concerns;
    ShardOfBatch(before, cmds, k);
    NowhereIsRefused(before, k, Select(Entries(cmds), Route(before), k));
  }

  lemma NothingIsNowhere(before: seq<Rows>)
    requires |before| == SHARDS
    ensures AllNowhere(before, [])
  {
  }

  lemma SomeCommand(cmds: seq<Command>, route: Command -> nat, k: nat)
    requires Select(Entries(cmds), route, k) != []
    ensures exists i :: 0 <= i < |cmds| && route(cmds[i]) == k
  {
    SelectSome(Entries(cmds), route, k);
  }

  lemma {:induction false} SelectSome(es: seq<(nat, Command)>, route: Command -> nat, k: nat)
    requires Select(es, route, k) != []
    ensures exists i :: 0 <= i < |es| && route(es[i].1) == k
  {
    var init, last := es[..|es| - 1], es[|es| - 1];
    if route(last.1) != k {
      SelectSome(init, route, k);
      var i :| 0 <= i < |init| && route(init[i].1) == k;
      assert es[i] == init[i];
    }
  }

  /** A batch within one shard is one transaction: if it fails, nothing changed. */
  lemma OneShardAtomic(before: seq<Rows>, cmds: seq<Command>, after: seq<Rows>, f: nat)
    requires |before| == SHARDS
    requires forall i, j :: 0 <= i < |cmds| && 0 <= j < |cmds| ==>
      ShardOf(before, cmds[i]) == ShardOf(before, cmds[j])
    requires Concerns(before, cmds, f)
    requires CommittedBelow(before, OneByOne(before, cmds).0, after, f)
    ensures after == before
  {
    var es, route := Entries(cmds), Route(before);
    forall k | 0 <= k < SHARDS ensures after[k] == before[k] {
      if k < f {
        ShardsIndependent(before, es, route, Serve, k);
        if Select(es, route, k) != [] { SomeCommand(cmds, route, k); }
      }
    }
  }

  // ----- publishes ahead of acknowledgements -----------------------------------------------

  function Kind(c: Command): nat { if c.Put? then 0 else 1 }

  function Puts(es: seq<(nat, Command)>): seq<(nat, Command)> { Select(es, Kind, 0) }

  function Acks(es: seq<(nat, Command)>): seq<(nat, Command)> { Select(es, Kind, 1) }

  lemma {:induction false} ExecUnique(rows: Rows, es: seq<(nat, Command)>)
    requires KeysUnique(rows)
    ensures KeysUnique(Exec(rows, es, Serve).0)
  {
    if es != [] {
      var init, last := es[..|es| - 1], es[|es| - 1];
      ExecUnique(rows, init);
      var mid := Exec(rows, init, Serve).0;
      match last.1 {
        case Put(item, now) => KeysStay(mid, Enqueue(item, now));
        case Ack(id, lease) => KeysStay(mid, Deliver(id, lease));
      }
    }
  }

  /** A publish neither sees nor is seen by a delivery record: a new row has no lease, and
      recording a delivery moves neither ids nor keys. */
  lemma PutAckCommute(rows: Rows, put: Command, ack: Command)
    requires KeysUnique(rows) && put.Put? && ack.Ack?
    ensures var p, a := Serve(rows, put), Serve(rows, ack);
      && Serve(a.0, put) == (Serve(p.0, ack).0, p.1)
      && Serve(p.0, ack).1 == a.1
  {
    var item := put.item;
    var acked := Serve(rows, ack).0;
    KeysStay(rows, Deliver(ack.id, ack.lease));
    assert acked.Keys == rows.Keys;
    forall id | id in rows ensures acked[id].key == rows[id].key { }
    if KeyTaken(rows, item.key) {
      var owner :| owner in rows && rows[owner].key == item.key;
      OwnerUnique(rows, item.key, owner);
      OwnerUnique(acked, item.key, owner);
    }
    assert KeyTaken(acked, item.key) ==> KeyTaken(rows, item.key);
    if !Conflicts(rows, item) {
      assert Serve(acked, put).0 == Serve(Serve(rows, put).0, ack).0;
    }
  }

  /** Two neighbouring entries, one of each kind, may change places. */
  lemma SwapLast(rows: Rows, pre: seq<(nat, Command)>, put: (nat, Command), ack: (nat, Command))
    requires KeysUnique(rows) && put.1.Put? && ack.1.Ack? && put.0 != ack.0
    ensures Exec(rows, pre + [ack] + [put], Serve) == Exec(rows, pre + [put] + [ack], Serve)
  {
    hide Serve, Exec, KeysUnique;
    ExecUnique(rows, pre);
    var mid := Exec(rows, pre, Serve);
    PutAckCommute(mid.0, put.1, ack.1);
    ExecSnoc(rows, pre, ack);
    ExecSnoc(rows, pre, put);
    ExecSnoc(rows, pre + [ack], put);
    ExecSnoc(rows, pre + [put], ack);
    var a, p := Serve(mid.0, ack.1), Serve(mid.0, put.1);
    assert mid.1[ack.0 := a.1][put.0 := p.1] == mid.1[put.0 := p.1][ack.0 := a.1];
  }

  lemma ExecSnoc(rows: Rows, es: seq<(nat, Command)>, e: (nat, Command))
    ensures var before := Exec(rows, es, Serve);
      var after := Serve(before.0, e.1);
      Exec(rows, es + [e], Serve) == (after.0, before.1[e.0 := after.1])
  {
    assert (es + [e])[..|es|] == es;
  }

  /** A publish moves ahead of any number of acknowledgements. */
  lemma {:induction false} PutPastAcks(rows: Rows, pre: seq<(nat, Command)>,
                                       acks: seq<(nat, Command)>, put: (nat, Command))
    requires KeysUnique(rows) && put.1.Put?
    requires forall i :: 0 <= i < |acks| ==> acks[i].1.Ack? && acks[i].0 != put.0
    ensures Exec(rows, pre + acks + [put], Serve) == Exec(rows, pre + [put] + acks, Serve)
  {
    hide Serve, Exec, KeysUnique;
    if acks == [] {
      assert pre + acks + [put] == pre + [put] + acks;
    } else {
      var init, ack := acks[..|acks| - 1], acks[|acks| - 1];
      assert pre + acks == pre + init + [ack];
      SwapLast(rows, pre + init, put, ack);
      PutPastAcks(rows, pre, init, put);
      ExecSnoc(rows, pre + init + [put], ack);
      ExecSnoc(rows, pre + [put] + init, ack);
      assert pre + [put] + init + [ack] == pre + [put] + acks;
    }
  }

  predicate AcksWithin(acks: seq<(nat, Command)>, indices: set<nat>) {
    forall i :: 0 <= i < |acks| ==> acks[i].1.Ack? && acks[i].0 in indices
  }

  lemma {:induction false} AcksMembers(es: seq<(nat, Command)>)
    ensures AcksWithin(Acks(es), Indices(es))
  {
    if es != [] {
      var init, last := es[..|es| - 1], es[|es| - 1];
      AcksMembers(init);
      assert es == init + [last];
      IndicesAppend(init, last);
      assert AcksWithin(Acks(init), Indices(init));
    }
  }

  /** Issuing all publishes of a batch before all its acknowledgements leaves the same table and
      the same replies as issuing the batch in order. */
  lemma {:induction false} PutsFirst(rows: Rows, es: seq<(nat, Command)>)
    requires KeysUnique(rows) && IndicesDiffer(es)
    ensures Exec(rows, es, Serve) == Exec(rows, Puts(es) + Acks(es), Serve)
  {
    hide Serve;
    if es != [] {
      var init, last := es[..|es| - 1], es[|es| - 1];
      var puts, acks := Puts(init), Acks(init);
      FreshLast(es);
      PutsFirst(rows, init);
      assert es == init + [last];
      ExecSnoc(rows, init, last);
      ExecSnoc(rows, puts + acks, last);
      if last.1.Put? {
        AcksMembers(init);
        PutPastAcks(rows, puts, acks, last);
        assert Puts(es) + Acks(es) == puts + [last] + acks;
      } else {
        assert Puts(es) + Acks(es) == puts + acks + [last];
      }
    }
  }
}
