/** The writer of one shard (`run_writer` in src/writer.rs): it drains its channel in bounded
    batches, retries publishes until they commit, answers acknowledgements once, and stops at a
    shutdown request. It works on the database of all sixteen shards, any of which may fail at
    any attempt, while other parts of the broker run their own statements in between. */
module Writer {
  import opened Sharding
  import opened MessageStore
  import opened Batching
  import opened QueueBatch
  import opened ShardBatch

  datatype Write = Cmd(c: Command) | Shutdown

  datatype Answer = Done(ok: bool) | Error

  /** What the surroundings do to one attempt: the statements others ran before it, each on its
      shard, and the shards that fail. */
  datatype Trial = Trial(others: seq<(nat, Op)>, broken: set<nat>)

  /** What they decide about one batch: how many commands arrive before the deadline, the attempts
      to publish that may fail before the one that cannot, and the attempt to acknowledge. */
  datatype Plan = Plan(arrives: nat, tries: seq<Trial>, last: seq<(nat, Op)>, acks: Trial)

  /** Number of commands ahead of the first shutdown request. */
  function Ahead(channel: seq<Write>): (n: nat)
    ensures n <= |channel|
    ensures forall i :: 0 <= i < n ==> channel[i].Cmd?
    ensures n < |channel| ==> channel[n].Shutdown?
  {
    if channel == [] || channel[0].Shutdown? then 0 else 1 + Ahead(channel[1..])
  }

  // ----- new ids ---------------------------------------------------------------------------

  /** The ids of the publishes. */
  function PutIds(es: seq<(nat, Command)>): set<string> {
    set i | 0 <= i < |es| && es[i].1.Put? :: es[i].1.item.id
  }

  predicate IdsApart(es: seq<(nat, Command)>) {
    forall i, j :: 0 <= i < j < |es| && es[i].1.Put? && es[j].1.Put? ==> es[i].1.item.id != es[j].1.item.id
  }

  lemma {:induction false} ExecIds(rows: Rows, es: seq<(nat, Command)>, id: string)
    requires id in Exec(rows, es, Serve).0
    ensures id in rows || id in PutIds(es)
  {
    if es != [] {
      var init, last := es[..|es| - 1], es[|es| - 1].1;
      var mid := Exec(rows, init, Serve).0;
      if id in mid {
        ExecIds(rows, init, id);
        if id !in rows {
          var i :| 0 <= i < |init| && init[i].1.Put? && init[i].1.item.id == id;
          assert es[i] == init[i];
        }
      } else {
        assert es[|es| - 1].1.Put? && es[|es| - 1].1.item.id == id;
      }
    }
  }

  /** With new ids a publish is accepted or recognised as a duplicate, never refused. */
  lemma {:induction false} NeverConflicts(rows: Rows, es: seq<(nat, Command)>)
    requires IdsApart(es) && PutIds(es) !! rows.Keys
    ensures !HasConflict(Exec(rows, es, Serve).1)
  {
    if es != [] {
      var init, last := es[..|es| - 1], es[|es| - 1];
      assert PutIds(init) <= PutIds(es) by {
        forall id | id in PutIds(init) ensures id in PutIds(es) {
          var i :| 0 <= i < |init| && init[i].1.Put? && init[i].1.item.id == id;
          assert es[i] == init[i];
        }
      }
      NeverConflicts(rows, init);
      if last.1.Put? {
        var id, mid := last.1.item.id, Exec(rows, init, Serve).0;
        assert es[|es| - 1].1.Put? && id in PutIds(es);
        assert id !in PutIds(init) by {
          forall i | 0 <= i < |init| && init[i].1.Put? ensures init[i].1.item.id != id {
            assert es[i] == init[i];
          }
        }
        if id in mid { ExecIds(rows, init, id); }
      }
    }
  }

  // ----- history ---------------------------------------------------------------------------

  /** What happened to the shard: a command of this writer, under its place in the channel, or a
      statement of another part of the broker. */
  datatype Event = Own(index: nat, c: Command) | Other(op: Op)

  /** The table and the replies to the writer's commands when the events run one after the other. */
  ghost function Replay(rows: Rows, history: seq<Event>): (Rows, map<nat, Reply>) {
    if history == [] then (rows, map[])
    else
      var before := Replay(rows, history[..|history| - 1]);
      match history[|history| - 1]
      case Own(index, c) =>
        var after := Serve(before.0, c);
        (after.0, before.1[index := after.1])
      case Other(op) => (Apply(before.0, op), before.1)
  }

  /** The writer's own commands in a history. */
  ghost function Owns(history: seq<Event>): seq<(nat, Command)> {
    if history == [] then []
    else
      Owns(history[..|history| - 1])
      + match history[|history| - 1]
        case Own(index, c) => [(index, c)]
        case Other(_) => []
  }

  function OwnEvents(es: seq<(nat, Command)>): (events: seq<Event>)
    ensures |events| == |es|
  {
    seq(|es|, i requires 0 <= i < |es| => Own(es[i].0, es[i].1))
  }

  /** The statements that fell on shard `k`. */
  function OthersOn(others: seq<(nat, Op)>, k: nat): seq<Event> {
    if others == [] then []
    else
      var last := others[|others| - 1];
      OthersOn(others[..|others| - 1], k) + if last.0 == k then [Other(last.1)] else []
  }

  lemma {:induction false} ReplayAppend(rows: Rows, a: seq<Event>, b: seq<Event>)
    ensures var first := Replay(rows, a); var second := Replay(first.0, b);
      Replay(rows, a + b) == (second.0, first.1 + second.1)
  {
    hide Serve, Apply;
    if b == [] {
      assert a + b == a;
      assert Replay(rows, a).1 + map[] == Replay(rows, a).1;
    } else {
      var init, last := b[..|b| - 1], b[|b| - 1];
      ReplayAppend(rows, a, init);
      assert (a + b)[..|a + b| - 1] == a + init && (a + b)[|a + b| - 1] == last;
      if last.Own? {
        var first := Replay(rows, a);
        var second := Replay(first.0, init);
        var reply := Serve(second.0, last.c).1;
        assert (first.1 + second.1)[last.index := reply] == first.1 + second.1[last.index := reply];
      }
    }
  }

  lemma {:induction false} OwnsAppend(a: seq<Event>, b: seq<Event>)
    ensures Owns(a + b) == Owns(a) + Owns(b)
  {
    if b == [] {
      assert a + b == a;
    } else {
      OwnsAppend(a, b[..|b| - 1]);
      assert (a + b)[..|a + b| - 1] == a + b[..|b| - 1];
    }
  }

  lemma {:induction false} ReplayOwn(rows: Rows, es: seq<(nat, Command)>)
    ensures Replay(rows, OwnEvents(es)) == Exec(rows, es, Serve) && Owns(OwnEvents(es)) == es
  {
    hide Serve;
    if es != [] {
      var init := es[..|es| - 1];
      ReplayOwn(rows, init);
      assert OwnEvents(es)[..|es| - 1] == OwnEvents(init);
    }
  }

  lemma {:induction false} ReplayOthers(rows: Rows, others: seq<(nat, Op)>, k: nat)
    ensures Replay(rows, OthersOn(others, k)).1 == map[] && Owns(OthersOn(others, k)) == []
  {
    hide Apply;
    if others != [] {
      var init, last := others[..|others| - 1], others[|others| - 1];
      ReplayOthers(rows, init, k);
      var before := OthersOn(init, k);
      assert before + [] == before && (before + [Other(last.1)])[..|before|] == before;
    }
  }

  lemma {:induction false} ReplayKeys(rows: Rows, history: seq<Event>)
    ensures Replay(rows, history).1.Keys == Indices(Owns(history))
  {
    hide Serve, Apply;
    if history != [] {
      var init, last := history[..|history| - 1], history[|history| - 1];
      ReplayKeys(rows, init);
      var owns := Owns(init);
      assert owns + [] == owns;
      if last.Own? { IndicesAppend(owns, (last.index, last.c)); }
    }
  }

  // ----- others ----------------------------------------------------------------------------

  /** The statements are on existing shards, and publish under none of these ids. */
  predicate Apart(others: seq<(nat, Op)>, ids: set<string>) {
    forall i :: 0 <= i < |others| ==>
      others[i].0 < SHARDS && (others[i].1.Enqueue? ==> others[i].1.item.id !in ids)
  }

  predicate PlanOk(plan: Plan, ids: set<string>) {
    && (forall i :: 0 <= i < |plan.tries| ==> Apart(plan.tries[i].others, ids))
    && Apart(plan.last, ids) && Apart(plan.acks.others, ids)
  }

  /** Others run their statements. */
  method Disturb(db: Database, k: nat, others: seq<(nat, Op)>, ghost ids: set<string>)
    requires db.Valid() && k < SHARDS && Apart(others, ids)
    modifies db
    ensures db.Valid()
    ensures db.shards[k] == Replay(old(db.shards)[k], OthersOn(others, k)).0
    ensures forall id :: id in ids && id in db.shards[k] ==> id in old(db.shards)[k]
  {
    for i := 0 to |others|
      invariant db.Valid() && db.shards[k] == Replay(old(db.shards)[k], OthersOn(others[..i], k)).0
      invariant forall id :: id in ids && id in db.shards[k] ==> id in old(db.shards)[k]
    {
      var (j, op) := others[i];
      KeysStay(db.shards[j], op);
      OthersStep(old(db.shards)[k], others, i, k);
      NewIdsFrom(db.shards[j], op);
      hide Replay, OthersOn, Apply, KeysUnique;
      db.shards := db.shards[j := Apply(db.shards[j], op)];
    }
    assert others[..|others|] == others;
  }

  lemma NewIdsFrom(rows: Rows, op: Op)
    ensures forall id :: id in Apply(rows, op) ==> id in rows || (op.Enqueue? && op.item.id == id)
  {
  }

  lemma OthersStep(rows: Rows, others: seq<(nat, Op)>, i: nat, k: nat)
    requires i < |others|
    ensures Replay(rows, OthersOn(others[..i + 1], k)).0
         == (var before := Replay(rows, OthersOn(others[..i], k)).0;
             if others[i].0 == k then Apply(before, others[i].1) else before)
  {
    assert others[..i + 1][..i] == others[..i];
    var before := OthersOn(others[..i], k);
    assert before + [] == before && (before + [Other(others[i].1)])[..|before|] == before;
  }

  // ----- one batch -------------------------------------------------------------------------

  /** Told replies and history of one list of commands: others first, then the commands. */
  lemma HistoryOf(rows: Rows, others: seq<Event>, es: seq<(nat, Command)>)
    requires Replay(rows, others).1 == map[] && Owns(others) == []
    ensures Replay(rows, others + OwnEvents(es)) == Exec(Replay(rows, others).0, es, Serve)
    ensures Owns(others + OwnEvents(es)) == es
  {
    ReplayAppend(rows, others, OwnEvents(es));
    OwnsAppend(others, OwnEvents(es));
    var mid := Replay(rows, others).0;
    ReplayOwn(mid, es);
    hide Exec, Replay, Owns;
    assert map[] + Exec(mid, es, Serve).1 == Exec(mid, es, Serve).1;
    assert [] + es == es;
  }

  lemma MoreOthers(rows: Rows, history: seq<Event>, others: seq<(nat, Op)>, k: nat)
    requires Replay(rows, history).1 == map[] && Owns(history) == []
    ensures var more := history + OthersOn(others, k);
      && Replay(rows, more).1 == map[] && Owns(more) == []
      && Replay(rows, more).0 == Replay(Replay(rows, history).0, OthersOn(others, k)).0
  {
    ReplayAppend(rows, history, OthersOn(others, k));
    OwnsAppend(history, OthersOn(others, k));
    ReplayOthers(Replay(rows, history).0, others, k);
  }

  /** The publishes are tried until they are in; `history` tells what came before and then that
      they are in, each once. */
  method Publish(db: Database, k: nat, puts: seq<(nat, Command)>, tries: seq<Trial>,
                 last: seq<(nat, Op)>, ghost ids: set<string>)
    returns (told: map<nat, Reply>, ghost history: seq<Event>)
    requires db.Valid() && k < SHARDS && AllHome(puts, k) && IndicesDiffer(puts) && IdsApart(puts)
    requires OnlyPuts(puts)
    requires PutIds(puts) <= ids && PutIds(puts) !! db.shards[k].Keys
    requires (forall i :: 0 <= i < |tries| ==> Apart(tries[i].others, ids)) && Apart(last, ids)
    modifies db
    ensures db.Valid() && (db.shards[k], told) == Replay(old(db.shards)[k], history)
    ensures Owns(history) == puts && told.Keys == Indices(puts)
    ensures !HasConflict(told) && forall i :: i in told ==> !told[i].Acked?
    ensures forall id :: id in ids && id in db.shards[k] ==> id in old(db.shards)[k] || id in PutIds(puts)
  {
    hide Replay, Owns, Exec, Serve, AllHome, IndicesDiffer, IdsApart, HasConflict, Apart, OthersOn, AllKeysUnique,
      OnlyPuts, Indices, PutIds;
    ghost var start := db.shards[k];
    ghost var others: seq<Event> := [];
    NoHistory(start);
    for i := 0 to |tries|
      invariant db.Valid() && Replay(start, others) == (db.shards[k], map[]) && Owns(others) == []
      invariant forall id :: id in ids && id in db.shards[k] ==> id in start
    {
      MoreOthers(start, others, tries[i].others, k);
      Disturb(db, k, tries[i].others, ids);
      others := others + OthersOn(tries[i].others, k);
      NeverConflicts(db.shards[k], puts);
      var ok;
      ghost var mid := db.shards[k];
      ok, told := Attempt(db, k, puts, tries[i].broken);
      if ok {
        Published(start, others, mid, puts);
        history := others + OwnEvents(puts);
        return;
      }
    }
    MoreOthers(start, others, last, k);
    Disturb(db, k, last, ids);
    others := others + OthersOn(last, k);
    NeverConflicts(db.shards[k], puts);
    ghost var mid := db.shards[k];
    var ok;
    ok, told := Attempt(db, k, puts, {});
    Published(start, others, mid, puts);
    history := others + OwnEvents(puts);
  }

  /** What is known once the publishes are in. */
  lemma Published(start: Rows, others: seq<Event>, mid: Rows, puts: seq<(nat, Command)>)
    requires Replay(start, others) == (mid, map[]) && Owns(others) == [] && OnlyPuts(puts)
    ensures Replay(start, others + OwnEvents(puts)) == Exec(mid, puts, Serve)
    ensures Owns(others + OwnEvents(puts)) == puts
    ensures var told := Exec(mid, puts, Serve).1;
      told.Keys == Indices(puts) && forall i :: i in told ==> !told[i].Acked?
    ensures forall id :: id in Exec(mid, puts, Serve).0 ==> id in mid || id in PutIds(puts)
  {
    HistoryOf(start, others, puts);
    IdsAfter(mid, puts);
    PutReplies(mid, puts);
    ExecKeys(mid, puts, Serve);
  }

  lemma NoHistory(rows: Rows)
    ensures Replay(rows, []) == (rows, map[]) && Owns([]) == []
  {
  }

  lemma IdsAfter(rows: Rows, es: seq<(nat, Command)>)
    ensures forall id :: id in Exec(rows, es, Serve).0 ==> id in rows || id in PutIds(es)
  {
    forall id | id in Exec(rows, es, Serve).0 ensures id in rows || id in PutIds(es) { ExecIds(rows, es, id); }
  }

  predicate OnlyAcks(es: seq<(nat, Command)>) { forall i :: 0 <= i < |es| ==> es[i].1.Ack? }

  predicate OnlyPuts(es: seq<(nat, Command)>) { forall i :: 0 <= i < |es| ==> es[i].1.Put? }

  lemma {:induction false} AckReplies(rows: Rows, es: seq<(nat, Command)>)
    requires OnlyAcks(es)
    ensures forall i :: i in Exec(rows, es, Serve).1 ==> Exec(rows, es, Serve).1[i].Acked?
  {
    if es != [] { AckReplies(rows, es[..|es| - 1]); }
  }

  lemma {:induction false} PutReplies(rows: Rows, es: seq<(nat, Command)>)
    requires OnlyPuts(es)
    ensures forall i :: i in Exec(rows, es, Serve).1 ==> !Exec(rows, es, Serve).1[i].Acked?
  {
    if es != [] { PutReplies(rows, es[..|es| - 1]); }
  }

  /** One attempt; on an error every waiting caller is told so, and nothing was recorded. */
  method Acknowledge(db: Database, k: nat, acks: seq<(nat, Command)>, trial: Trial, ghost ids: set<string>)
    returns (answers: map<nat, Answer>, ok: bool, ghost told: map<nat, Reply>, ghost history: seq<Event>)
    requires db.Valid() && k < SHARDS && AllHome(acks, k) && IndicesDiffer(acks) && OnlyAcks(acks)
    requires Apart(trial.others, ids)
    modifies db
    ensures db.Valid() && (db.shards[k], told) == Replay(old(db.shards)[k], history)
    ensures Owns(history) == if ok then acks else []
    ensures answers.Keys == Indices(acks)
    ensures forall i :: i in answers ==>
      if ok then answers[i].Done? && i in told && told[i] == Acked(answers[i].ok) else answers[i].Error?
    ensures forall i :: i in told ==> told[i].Acked?
    ensures forall id :: id in ids && id in db.shards[k] ==> id in old(db.shards)[k]
  {
    hide Replay, Owns, Exec, Serve, AllHome, IndicesDiffer, Apart, OthersOn, AllKeysUnique, Indices;
    ghost var start := db.shards[k];
    NoHistory(start);
    MoreOthers(start, [], trial.others, k);
    Disturb(db, k, trial.others, ids);
    ghost var others := [] + OthersOn(trial.others, k);
    assert others == OthersOn(trial.others, k);
    ghost var mid := db.shards[k];
    AckReplies(mid, acks);
    ExecKeys(mid, acks, Serve);
    var replies;
    ok, replies := Attempt(db, k, acks, trial.broken);
    if ok {
      HistoryOf(start, others, acks);
      history, told := others + OwnEvents(acks), replies;
      answers := map i | i in replies && replies[i].Acked? :: Done(replies[i].ok);
      IdsAfter(mid, acks);
      NoPutIds(acks);
    } else {
      history, told := others, map[];
      answers := map i | i in Indices(acks) :: Error;
    }
  }

  lemma NoPutIds(es: seq<(nat, Command)>)
    requires OnlyAcks(es)
    ensures PutIds(es) == {}
  {
  }

  method Split(es: seq<(nat, Command)>) returns (puts: seq<(nat, Command)>, acks: seq<(nat, Command)>)
    ensures puts == Puts(es) && acks == Acks(es)
  {
    puts, acks := [], [];
    for j := 0 to |es|
      invariant puts == Puts(es[..j]) && acks == Acks(es[..j])
    {
      assert es[..j + 1][..j] == es[..j];
      if es[j].1.Put? {
        puts := puts + [es[j]];
      } else {
        acks := acks + [es[j]];
      }
    }
    assert es[..|es|] == es;
  }

  /** What a batch is told: an answer for each acknowledgement, true if there was no error, and a
      wake-up for exactly the messages that are new. */
  ghost predicate Told(es: seq<(nat, Command)>, acked: bool, replies: map<nat, Reply>,
                       answers: map<nat, Answer>, notified: set<nat>) {
    && answers.Keys == Indices(Acks(es))
    && (forall i :: i in answers ==>
          if acked then answers[i].Done? && i in replies && replies[i] == Acked(answers[i].ok)
          else answers[i].Error?)
    && (forall i :: i in Indices(Puts(es)) ==>
          i in replies && (replies[i].Accepted? || replies[i].Duplicate?))
    && (forall i :: i in notified <==> i in replies && replies[i].Accepted?)
  }

  lemma {:induction false} KindsOf(es: seq<(nat, Command)>, k: nat)
    requires AllHome(es, k)
    ensures OnlyPuts(Puts(es)) && OnlyAcks(Acks(es)) && AllHome(Puts(es), k) && AllHome(Acks(es), k)
  {
    if es != [] {
      var init, last := es[..|es| - 1], es[|es| - 1];
      KindsOf(init, k);
      assert Puts(init) + [] == Puts(init) && Acks(init) + [] == Acks(init);
    }
  }

  lemma {:induction false} KindsDisjoint(es: seq<(nat, Command)>)
    requires IndicesDiffer(es)
    ensures Indices(Puts(es)) !! Indices(Acks(es))
  {
    if es != [] {
      var init, last := es[..|es| - 1], es[|es| - 1];
      FreshLast(es);
      KindsDisjoint(init);
      SelectMembers(init, Kind, 0);
      SelectMembers(init, Kind, 1);
      var puts, acks := Puts(init), Acks(init);
      assert puts + [] == puts && acks + [] == acks;
      IndicesAppend(puts, last);
      IndicesAppend(acks, last);
    }
  }

  lemma {:induction false} PutsIds(es: seq<(nat, Command)>)
    requires IdsApart(es)
    ensures PutIds(Puts(es)) == PutIds(es) && IdsApart(Puts(es))
  {
    if es != [] {
      var init, last := es[..|es| - 1], es[|es| - 1];
      var puts := Puts(init);
      PutsIds(init);
      assert puts + [] == puts && es == init + [last];
      PutIdsAppend(init, last);
      PutIdsAppend(puts, last);
      if last.1.Put? {
        forall i | 0 <= i < |puts| && puts[i].1.Put? ensures puts[i].1.item.id != last.1.item.id {
          assert puts[i].1.item.id in PutIds(puts);
          var j :| 0 <= j < |init| && init[j].1.Put? && init[j].1.item.id == puts[i].1.item.id;
          assert es[j] == init[j];
        }
      }
    }
  }

  lemma PutIdsAppend(init: seq<(nat, Command)>, last: (nat, Command))
    ensures PutIds(init + [last]) == PutIds(init) + if last.1.Put? then {last.1.item.id} else {}
  {
    var es := init + [last];
    forall id | id in PutIds(init) ensures id in PutIds(es) {
      var i :| 0 <= i < |init| && init[i].1.Put? && init[i].1.item.id == id;
      assert es[i] == init[i];
    }
    assert last.1.Put? ==> es[|init|].1.item.id in PutIds(es);
  }

  /** The lists a batch is split into. */
  lemma SplitFacts(es: seq<(nat, Command)>, k: nat)
    requires AllHome(es, k) && IndicesDiffer(es) && IdsApart(es)
    ensures var puts, acks := Puts(es), Acks(es);
      && IndicesDiffer(puts) && IndicesDiffer(acks) && Indices(puts) !! Indices(acks)
      && OnlyPuts(puts) && OnlyAcks(acks) && AllHome(puts, k) && AllHome(acks, k)
      && PutIds(puts) == PutIds(es) && IdsApart(puts)
      && Indices(puts) <= Indices(es) && Indices(acks) <= Indices(es)
  {
    KindsOf(es, k);
    KindsDisjoint(es);
    SelectDistinct(es, Kind, 0);
    SelectDistinct(es, Kind, 1);
    SelectMembers(es, Kind, 0);
    SelectMembers(es, Kind, 1);
    PutsIds(es);
  }

  /** What the history of a batch says of its commands. */
  ghost predicate Recounts(es: seq<(nat, Command)>, acked: bool, history: seq<Event>) {
    && Puts(Owns(history)) == Puts(es)
    && Acks(Owns(history)) == (if acked then Acks(es) else [])
    && IndicesDiffer(Owns(history)) && Indices(Owns(history)) <= Indices(es)
  }

  lemma BatchRecounts(es: seq<(nat, Command)>, k: nat, acked: bool, first: seq<Event>, second: seq<Event>)
    requires AllHome(es, k) && IndicesDiffer(es) && IdsApart(es)
    requires Owns(first) == Puts(es) && Owns(second) == if acked then Acks(es) else []
    ensures Recounts(es, acked, first + second)
  {
    SplitFacts(es, k);
    OwnsAppend(first, second);
    var puts, rest := Puts(es), Owns(second);
    SelectAppend(puts, rest, Kind, 0);
    SelectAppend(puts, rest, Kind, 1);
    SelectTwice(es, Kind, 0, 0);
    SelectTwice(es, Kind, 0, 1);
    SelectTwice(es, Kind, 1, 0);
    SelectTwice(es, Kind, 1, 1);
    assert puts + [] == puts && [] + rest == rest;
    JoinDiffers(puts, rest);
    IndicesJoin(puts, rest);
  }

  lemma CombineTold(es: seq<(nat, Command)>, acked: bool, told: map<nat, Reply>,
                    more: map<nat, Reply>, answers: map<nat, Answer>, notified: set<nat>)
    requires told.Keys !! more.Keys && forall i :: i in more ==> more[i].Acked?
    requires told.Keys == Indices(Puts(es)) && !HasConflict(told)
    requires forall i :: i in told ==> !told[i].Acked?
    requires answers.Keys == Indices(Acks(es))
    requires forall i :: i in answers ==>
      if acked then answers[i].Done? && i in more && more[i] == Acked(answers[i].ok)
      else answers[i].Error?
    requires notified == set i | i in told && told[i].Accepted?
    ensures Told(es, acked, told + more, answers, notified)
  {
  }

  /** Publishes with retries, then acknowledgements. */
  method RunBatch(db: Database, k: nat, es: seq<(nat, Command)>, plan: Plan, ghost ids: set<string>)
    returns (answers: map<nat, Answer>, notified: set<nat>, ghost acked: bool, ghost replies: map<nat, Reply>,
             ghost history: seq<Event>)
    requires db.Valid() && k < SHARDS && AllHome(es, k) && IndicesDiffer(es) && IdsApart(es)
    requires PutIds(es) <= ids && PutIds(es) !! db.shards[k].Keys && PlanOk(plan, ids)
    modifies db
    ensures db.Valid() && (db.shards[k], replies) == Replay(old(db.shards)[k], history)
    ensures Recounts(es, acked, history) && Told(es, acked, replies, answers, notified)
    ensures forall id :: id in ids && id in db.shards[k] ==> id in old(db.shards)[k] || id in PutIds(es)
  {
    hide Puts, Acks, Exec, Serve, IndicesDiffer, KeysUnique, HasConflict, Indices, Told, Replay, Owns, PutIds,
      IdsApart, AllHome, OnlyAcks, OnlyPuts, AllKeysUnique, Apart, Recounts, Select;
    SplitFacts(es, k);
    var puts, acks := Split(es);
    ghost var start := db.shards[k];
    var told;
    ghost var first, second, more;
    told, first := Publish(db, k, puts, plan.tries, plan.last, ids);
    notified := set i | i in told && told[i].Accepted?;
    ghost var mid := db.shards[k];
    var ok;
    answers, ok, more, second := Acknowledge(db, k, acks, plan.acks, ids);
    acked := ok;
    ReplayKeys(mid, second);
    history, replies := first + second, told + more;
    ReplayAppend(start, first, second);
    BatchRecounts(es, k, acked, first, second);
    MoreKeys(more, acks, ok);
    CombineTold(es, acked, told, more, answers, notified);
  }

  lemma MoreKeys(more: map<nat, Reply>, acks: seq<(nat, Command)>, ok: bool)
    requires more.Keys == Indices(if ok then acks else [])
    ensures more.Keys <= Indices(acks)
  {
  }

  // ----- the whole channel -----------------------------------------------------------------

  /** The entries of the channel from `i` on, `n` of them. */
  function Window(channel: seq<Write>, i: nat, n: nat): (es: seq<(nat, Command)>)
    requires i + n <= Ahead(channel)
    ensures |es| == n && forall j :: 0 <= j < n ==> es[j] == (i + j, channel[i + j].c)
    ensures IndicesDiffer(es)
  {
    seq(n, j requires 0 <= j < n => (i + j, channel[i + j].c))
  }

  /** Command `i` took effect: every publish, and every acknowledgement answered without error. */
  predicate TookEffect(channel: seq<Write>, answers: map<nat, Answer>, i: nat)
    requires i < |channel| && channel[i].Cmd?
  {
    channel[i].c.Put? || (i in answers && answers[i].Done?)
  }

  /** The commands below `n` that took effect, in channel order. */
  ghost function Applied(channel: seq<Write>, answers: map<nat, Answer>, n: nat): seq<(nat, Command)>
    requires n <= Ahead(channel)
  {
    if n == 0 then []
    else Applied(channel, answers, n - 1)
         + if TookEffect(channel, answers, n - 1) then [(n - 1, channel[n - 1].c)] else []
  }

  ghost function AckIndices(channel: seq<Write>, n: nat): set<nat>
    requires n <= Ahead(channel)
  {
    set i | 0 <= i < n && channel[i].c.Ack?
  }

  /** The commands of the history are those of the channel: every publish once, in order; of the
      acknowledgements exactly those answered without error, once, in order. */
  ghost predicate Complete(channel: seq<Write>, answers: map<nat, Answer>, history: seq<Event>, n: nat)
    requires n <= Ahead(channel)
  {
    && Puts(Owns(history)) == Puts(Applied(channel, answers, n))
    && Acks(Owns(history)) == Acks(Applied(channel, answers, n))
    && IndicesDiffer(Owns(history)) && forall i :: i in Indices(Owns(history)) ==> i < n
  }

  /** Replies, answers and wake-ups agree: every publish went in or was a duplicate, every
      acknowledgement has one answer, an answer without error is the true one, and the messages
      woken for are exactly the new ones. */
  ghost predicate Answered(channel: seq<Write>, replies: map<nat, Reply>, answers: map<nat, Answer>,
                           notified: set<nat>, n: nat)
    requires n <= Ahead(channel)
  {
    && answers.Keys == AckIndices(channel, n)
    && (forall i :: 0 <= i < n && channel[i].c.Put? ==>
          i in replies && (replies[i].Accepted? || replies[i].Duplicate?))
    && (forall i :: i in answers && answers[i].Done? ==>
          i in replies && replies[i] == Acked(answers[i].ok))
    && (forall i :: i in notified <==> i in replies && replies[i].Accepted?)
  }

  /** The first `n` commands of the channel are dealt with: the table and the replies are those of
      the history, which has each of them in its place. */
  ghost predicate Served(rows: Rows, channel: seq<Write>, rows': Rows, answers: map<nat, Answer>,
                         notified: set<nat>, history: seq<Event>, n: nat)
    requires n <= Ahead(channel)
  {
    && rows' == Replay(rows, history).0
    && Complete(channel, answers, history, n)
    && Answered(channel, Replay(rows, history).1, answers, notified, n)
  }

  ghost predicate SameBelow(a: map<nat, Answer>, b: map<nat, Answer>, i: nat) {
    forall j :: 0 <= j < i ==> (j in a <==> j in b) && (j in a ==> a[j] == b[j])
  }

  lemma {:induction false} AppliedFrame(channel: seq<Write>, a: map<nat, Answer>,
                                        b: map<nat, Answer>, i: nat)
    requires i <= Ahead(channel) && SameBelow(a, b, i)
    ensures Applied(channel, a, i) == Applied(channel, b, i)
  {
    if i > 0 { AppliedFrame(channel, a, b, i - 1); }
  }

  /** The part of a batch that takes effect. */
  function Effective(es: seq<(nat, Command)>, acked: bool): seq<(nat, Command)> {
    if acked then es else Puts(es)
  }

  lemma EffectiveNone(acked: bool)
    ensures Effective([], acked) == []
  {
  }

  lemma EffectiveSnoc(es: seq<(nat, Command)>, last: (nat, Command), acked: bool)
    ensures Effective(es + [last], acked)
         == Effective(es, acked) + if !acked && last.1.Ack? then [] else [last]
  {
    assert (es + [last])[..|es|] == es;
  }

  /** A batch adds its effective part to what was applied. */
  lemma {:induction false} AppliedExtend(channel: seq<Write>, a: map<nat, Answer>,
                                         b: map<nat, Answer>, i: nat, n: nat, acked: bool)
    requires i + n <= Ahead(channel) && SameBelow(a, b, i)
    requires forall j :: i <= j < i + n && channel[j].c.Ack? ==> j in b && (b[j].Done? <==> acked)
    ensures Applied(channel, b, i + n)
         == Applied(channel, a, i) + Effective(Window(channel, i, n), acked)
  {
    hide Ahead, Effective;
    if n == 0 {
      AppliedFrame(channel, a, b, i);
      var w := Window(channel, i, 0);
      assert w == [];
      EffectiveNone(acked);
    } else {
      AppliedExtend(channel, a, b, i, n - 1, acked);
      var w, last := Window(channel, i, n - 1), (i + n - 1, channel[i + n - 1].c);
      assert Window(channel, i, n) == w + [last];
      EffectiveSnoc(w, last, acked);
      var tail := if !acked && last.1.Ack? then [] else [last];
      assert Applied(channel, b, i + n) == Applied(channel, b, i + n - 1) + tail;
    }
  }

  /** Which indices of a stretch are publishes and which acknowledgements. */
  lemma WindowKinds(channel: seq<Write>, i: nat, n: nat)
    requires i + n <= Ahead(channel)
    ensures var es := Window(channel, i, n);
      && (forall j :: i <= j < i + n && channel[j].c.Put? ==> j in Indices(Puts(es)))
      && Indices(Acks(es)) == (set j | i <= j < i + n && channel[j].c.Ack?)
      && (forall j :: j in Indices(es) ==> i <= j < i + n)
  {
    var es := Window(channel, i, n);
    SelectMembers(es, Kind, 0);
    SelectMembers(es, Kind, 1);
    KindsDisjoint(es);
    forall j | i <= j < i + n && channel[j].c.Put? ensures j in Indices(Puts(es)) {
      assert es[j - i].0 == j && Kind(es[j - i].1) == 0;
    }
    forall j | i <= j < i + n && channel[j].c.Ack? ensures j in Indices(Acks(es)) {
      assert es[j - i].0 == j && Kind(es[j - i].1) == 1;
    }
    forall j | j in Indices(Acks(es)) ensures i <= j < i + n && channel[j].c.Ack? {
      assert j in Indices(es);
    }
  }

  lemma CompleteExtend(channel: seq<Write>, answers: map<nat, Answer>, more: map<nat, Answer>,
                       history: seq<Event>, part: seq<Event>, i: nat, n: nat, acked: bool)
    requires i + n <= Ahead(channel) && Complete(channel, answers, history, i)
    requires answers.Keys == AckIndices(channel, i)
    requires Recounts(Window(channel, i, n), acked, part)
    requires more.Keys == Indices(Acks(Window(channel, i, n)))
    requires forall j :: j in more ==> (more[j].Done? <==> acked)
    ensures Complete(channel, answers + more, history + part, i + n)
  {
    hide Owns, Applied, Ahead, Window, Puts, Acks, Effective, Indices, IndicesDiffer;
    WindowKinds(channel, i, n);
    AppliedExtend(channel, answers, answers + more, i, n, acked);
    OwnsAppend(history, part);
    var es, before := Window(channel, i, n), Applied(channel, answers, i);
    EffectiveKinds(es, acked);
    JoinKinds(Owns(history), Owns(part), before, Effective(es, acked));
    JoinBelow(Owns(history), Owns(part), i, n);
  }

  /** Sequences with the same publishes and the same acknowledgements, put end to end. */
  lemma JoinKinds(a: seq<(nat, Command)>, b: seq<(nat, Command)>, c: seq<(nat, Command)>, d: seq<(nat, Command)>)
    requires Puts(a) == Puts(c) && Puts(b) == Puts(d) && Acks(a) == Acks(c) && Acks(b) == Acks(d)
    ensures Puts(a + b) == Puts(c + d) && Acks(a + b) == Acks(c + d)
  {
    SelectAppend(a, b, Kind, 0);
    SelectAppend(a, b, Kind, 1);
    SelectAppend(c, d, Kind, 0);
    SelectAppend(c, d, Kind, 1);
  }

  lemma JoinBelow(a: seq<(nat, Command)>, b: seq<(nat, Command)>, i: nat, n: nat)
    requires IndicesDiffer(a) && IndicesDiffer(b)
    requires (forall j :: j in Indices(a) ==> j < i) && forall j :: j in Indices(b) ==> i <= j < i + n
    ensures IndicesDiffer(a + b) && forall j :: j in Indices(a + b) ==> j < i + n
  {
    JoinDiffers(a, b);
    IndicesJoin(a, b);
  }

  lemma EffectiveKinds(es: seq<(nat, Command)>, acked: bool)
    ensures Puts(Effective(es, acked)) == Puts(es)
    ensures Acks(Effective(es, acked)) == if acked then Acks(es) else []
  {
    SelectTwice(es, Kind, 0, 0);
    SelectTwice(es, Kind, 0, 1);
  }

  lemma AnswersExtend(channel: seq<Write>, i: nat, n: nat, acked: bool, all: map<nat, Reply>,
                      replies: map<nat, Reply>, answers: map<nat, Answer>, more: map<nat, Answer>,
                      notified: set<nat>, woken: set<nat>)
    requires i + n <= Ahead(channel) && Answered(channel, all, answers, notified, i)
    requires Told(Window(channel, i, n), acked, replies, more, woken)
    requires (forall j :: j in all ==> j < i) && forall j :: j in replies ==> j >= i
    ensures (answers + more).Keys == AckIndices(channel, i + n)
    ensures forall j :: j in answers + more && (answers + more)[j].Done? ==>
      j in all + replies && (all + replies)[j] == Acked((answers + more)[j].ok)
  {
    WindowKinds(channel, i, n);
    hide Ahead, Puts, Acks, Window, Indices;
  }

  lemma RepliesExtend(channel: seq<Write>, i: nat, n: nat, acked: bool, all: map<nat, Reply>,
                      replies: map<nat, Reply>, answers: map<nat, Answer>, more: map<nat, Answer>,
                      notified: set<nat>, woken: set<nat>)
    requires i + n <= Ahead(channel) && Answered(channel, all, answers, notified, i)
    requires Told(Window(channel, i, n), acked, replies, more, woken)
    requires (forall j :: j in all ==> j < i) && forall j :: j in replies ==> j >= i
    ensures forall j :: 0 <= j < i + n && channel[j].c.Put? ==>
      j in all + replies && ((all + replies)[j].Accepted? || (all + replies)[j].Duplicate?)
    ensures forall j :: j in notified + woken <==> j in all + replies && (all + replies)[j].Accepted?
  {
    WindowKinds(channel, i, n);
    hide Ahead, Puts, Acks, Window, Indices, AckIndices;
  }

  lemma AnsweredExtend(channel: seq<Write>, i: nat, n: nat, acked: bool, all: map<nat, Reply>,
                       replies: map<nat, Reply>, answers: map<nat, Answer>, more: map<nat, Answer>,
                       notified: set<nat>, woken: set<nat>)
    requires i + n <= Ahead(channel) && Answered(channel, all, answers, notified, i)
    requires Told(Window(channel, i, n), acked, replies, more, woken)
    requires (forall j :: j in all ==> j < i) && forall j :: j in replies ==> j >= i
    ensures Answered(channel, all + replies, answers + more, notified + woken, i + n)
  {
    hide Ahead, Puts, Acks, Window, Indices, AckIndices, Told;
    AnswersExtend(channel, i, n, acked, all, replies, answers, more, notified, woken);
    RepliesExtend(channel, i, n, acked, all, replies, answers, more, notified, woken);
  }

  /** A batch carries the bookkeeping from one point of the channel to the next. */
  lemma ServedExtend(rows: Rows, channel: seq<Write>, mid: Rows, answers: map<nat, Answer>,
                     notified: set<nat>, history: seq<Event>, i: nat, n: nat, acked: bool, rows': Rows,
                     more: map<nat, Answer>, woken: set<nat>, replies: map<nat, Reply>, part: seq<Event>)
    requires i + n <= Ahead(channel) && Served(rows, channel, mid, answers, notified, history, i)
    requires (rows', replies) == Replay(mid, part)
    requires Recounts(Window(channel, i, n), acked, part)
    requires Told(Window(channel, i, n), acked, replies, more, woken)
    ensures Served(rows, channel, rows', answers + more, notified + woken, history + part, i + n)
  {
    WindowKinds(channel, i, n);
    ReplayAppend(rows, history, part);
    ReplayKeys(rows, history);
    ReplayKeys(mid, part);
    var all := Replay(rows, history).1;
    hide Replay, Owns, Applied, Ahead, Puts, Acks, Window;
    CompleteExtend(channel, answers, more, history, part, i, n, acked);
    AnsweredExtend(channel, i, n, acked, all, replies, answers, more, notified, woken);
  }

  lemma ServedStart(rows: Rows, channel: seq<Write>)
    ensures Served(rows, channel, rows, map[], {}, [], 0)
  {
  }

  /** What admission guarantees of the channel of writer `k`: its commands are at home there, and
      the ids of its publishes are new. */
  ghost predicate Admitted(channel: seq<Write>, k: nat, rows: Rows, ids: set<string>) {
    var all := Window(channel, 0, Ahead(channel));
    AllHome(all, k) && IdsApart(all) && ids == PutIds(all) && ids !! rows.Keys
  }

  /** The ids still to come are not in the table. */
  ghost predicate StillNew(channel: seq<Write>, i: nat, rows: Rows) {
    forall j :: i <= j < Ahead(channel) && channel[j].c.Put? ==> channel[j].c.item.id !in rows
  }

  lemma WindowFacts(channel: seq<Write>, k: nat, start: Rows, ids: set<string>, i: nat, n: nat, rows: Rows)
    requires Admitted(channel, k, start, ids) && i + n <= Ahead(channel) && StillNew(channel, i, rows)
    ensures var es := Window(channel, i, n);
      AllHome(es, k) && IdsApart(es) && PutIds(es) <= ids && PutIds(es) !! rows.Keys
  {
    var all, es := Window(channel, 0, Ahead(channel)), Window(channel, i, n);
    forall j | 0 <= j < n ensures es[j] == all[i + j] { }
    forall id | id in PutIds(es) ensures id in PutIds(all) && id !in rows {
      var j :| 0 <= j < n && es[j].1.Put? && es[j].1.item.id == id;
      assert all[i + j] == es[j];
      assert channel[i + j].c.item.id !in rows;
    }
    forall a, b | 0 <= a < b < n && es[a].1.Put? && es[b].1.Put? ensures es[a].1.item.id != es[b].1.item.id {
      assert all[i + a] == es[a] && all[i + b] == es[b];
    }
  }

  lemma NewAtStart(channel: seq<Write>, k: nat, start: Rows, ids: set<string>)
    requires Admitted(channel, k, start, ids)
    ensures StillNew(channel, 0, start)
  {
    var all := Window(channel, 0, Ahead(channel));
    forall j | 0 <= j < Ahead(channel) && channel[j].c.Put? ensures channel[j].c.item.id !in start {
      assert all[j].1.item.id in PutIds(all);
    }
  }

  lemma NewLater(channel: seq<Write>, k: nat, start: Rows, ids: set<string>, i: nat, n: nat, mid: Rows, rows: Rows)
    requires Admitted(channel, k, start, ids) && i + n <= Ahead(channel) && StillNew(channel, i, mid)
    requires forall id :: id in ids && id in rows ==> id in mid || id in PutIds(Window(channel, i, n))
    ensures StillNew(channel, i + n, rows)
  {
    var all, es := Window(channel, 0, Ahead(channel)), Window(channel, i, n);
    forall j | i + n <= j < Ahead(channel) && channel[j].c.Put? ensures channel[j].c.item.id !in rows {
      var id := channel[j].c.item.id;
      assert all[j].1.item.id in PutIds(all);
      assert id !in PutIds(es) by {
        forall a | 0 <= a < n && es[a].1.Put? ensures es[a].1.item.id != id {
          assert all[i + a] == es[a] && all[j].1.item.id == id;
        }
      }
    }
  }

  /** How many commands the next batch takes. */
  method Gather(channel: seq<Write>, i: nat, batchSize: nat, arrives: nat) returns (n: nat)
    requires i < Ahead(channel) && batchSize >= 1
    ensures 1 <= n <= batchSize && i + n <= Ahead(channel) && (n == 1 || n <= arrives)
    ensures n < batchSize && n < arrives ==> i + n == Ahead(channel)
  {
    n := 1;
    while n < batchSize && n < arrives && i + n < |channel| && channel[i + n].Cmd?
      invariant 1 <= n <= batchSize && i + n <= Ahead(channel) && (n == 1 || n <= arrives)
    {
      n := n + 1;
    }
  }

  /** The next batch, with what is now known of the channel. */
  method ServeNext(db: Database, k: nat, channel: seq<Write>, i: nat, n: nat, plan: Plan,
                   answers: map<nat, Answer>, notified: set<nat>, ghost history: seq<Event>,
                   ghost start: Rows, ghost ids: set<string>)
    returns (answers': map<nat, Answer>, notified': set<nat>, ghost history': seq<Event>)
    requires db.Valid() && k < SHARDS && i + n <= Ahead(channel)
    requires Admitted(channel, k, start, ids) && PlanOk(plan, ids) && StillNew(channel, i, db.shards[k])
    requires Served(start, channel, db.shards[k], answers, notified, history, i)
    modifies db
    ensures db.Valid() && StillNew(channel, i + n, db.shards[k])
    ensures Served(start, channel, db.shards[k], answers', notified', history', i + n)
  {
    hide Replay, Owns, Applied, Ahead, AllKeysUnique, Told, IndicesDiffer, Served, Recounts, Admitted, StillNew,
      AllHome, IdsApart, PutIds, PlanOk;
    ghost var mid := db.shards[k];
    WindowFacts(channel, k, start, ids, i, n, mid);
    var more, woken;
    ghost var acked, replies, part;
    more, woken, acked, replies, part := RunBatch(db, k, Window(channel, i, n), plan, ids);
    ServedExtend(start, channel, mid, answers, notified, history, i, n, acked, db.shards[k], more, woken,
                 replies, part);
    NewLater(channel, k, start, ids, i, n, mid, db.shards[k]);
    answers', notified', history' := answers + more, notified + woken, history + part;
  }

  /** The writer is between two batches, with the first `i` commands dealt with. */
  ghost predicate Between(start: Rows, channel: seq<Write>, rows: Rows, answers: map<nat, Answer>, notified: set<nat>,
                          batches: seq<nat>, batchSize: nat, history: seq<Event>, i: nat) {
    && i <= Ahead(channel) && StillNew(channel, i, rows) && InBatches(batches, batchSize, i)
    && Served(start, channel, rows, answers, notified, history, i)
  }

  /** One turn of the writer: it gathers a batch and serves it. */
  method Turn(db: Database, k: nat, channel: seq<Write>, i: nat, batchSize: nat, plan: Plan,
              answers: map<nat, Answer>, notified: set<nat>, batches: seq<nat>, ghost history: seq<Event>,
              ghost start: Rows, ghost ids: set<string>)
    returns (n: nat, answers': map<nat, Answer>, notified': set<nat>, ghost history': seq<Event>)
    requires db.Valid() && k < SHARDS && i < Ahead(channel) && batchSize >= 1
    requires Admitted(channel, k, start, ids) && PlanOk(plan, ids)
    requires Between(start, channel, db.shards[k], answers, notified, batches, batchSize, history, i)
    modifies db
    ensures 1 <= n && i + n <= Ahead(channel) && db.Valid() && k < |db.shards|
    ensures Between(start, channel, db.shards[k], answers', notified', batches + [n], batchSize, history', i + n)
  {
    hide Ahead, AllKeysUnique, Served, Admitted, StillNew, PlanOk, InBatches;
    n := Gather(channel, i, batchSize, plan.arrives);
    BatchesAppend(batches, batchSize, i, n);
    answers', notified', history' :=
      ServeNext(db, k, channel, i, n, plan, answers, notified, history, start, ids);
  }

  lemma BetweenStart(channel: seq<Write>, k: nat, start: Rows, batchSize: nat, ids: set<string>)
    requires Admitted(channel, k, start, ids)
    ensures Between(start, channel, start, map[], {}, [], batchSize, [], 0)
  {
    NewAtStart(channel, k, start, ids);
    ServedStart(start, channel);
    BatchesNone(batchSize);
  }

  /** `run_writer` for shard `k`. When it returns at a shutdown request, every command ahead of the
      request has been dealt with, in batches of at most `batchSize`; nothing behind it was
      touched. */
  method RunWriter(db: Database, k: nat, channel: seq<Write>, batchSize: nat, plans: nat -> Plan,
                   ghost ids: set<string>)
    returns (answers: map<nat, Answer>, notified: set<nat>, batches: seq<nat>, ghost history: seq<Event>)
    requires db.Valid() && k < SHARDS && batchSize >= 1
    requires Admitted(channel, k, db.shards[k], ids) && forall b: nat :: PlanOk(plans(b), ids)
    modifies db
    ensures db.Valid()
    ensures Served(old(db.shards)[k], channel, db.shards[k], answers, notified, history, Ahead(channel))
    ensures InBatches(batches, batchSize, Ahead(channel))
  {
    hide *;
    HasShards(db);
    ghost var start := db.shards[k];
    BetweenStart(channel, k, start, batchSize, ids);
    answers, notified, batches, history := map[], {}, [], [];
    var i := 0;
    while i < |channel| && channel[i].Cmd?
      invariant i <= Ahead(channel) && db.Valid() && k < |db.shards|
      invariant Between(start, channel, db.shards[k], answers, notified, batches, batchSize, history, i)
    {
      AheadHere(channel, i);
      var n;
      n, answers, notified, history :=
        Turn(db, k, channel, i, batchSize, plans(|batches|), answers, notified, batches, history, start, ids);
      batches := batches + [n];
      i := i + n;
    }
    BetweenDone(start, channel, db.shards[k], answers, notified, batches, batchSize, history, i);
  }

  lemma HasShards(db: Database)
    requires db.Valid()
    ensures |db.shards| == SHARDS
  {
  }

  lemma AheadHere(channel: seq<Write>, i: nat)
    requires i < |channel| && channel[i].Cmd? && i <= Ahead(channel)
    ensures i < Ahead(channel)
  {
  }

  lemma BetweenDone(start: Rows, channel: seq<Write>, rows: Rows, answers: map<nat, Answer>, notified: set<nat>,
                    batches: seq<nat>, batchSize: nat, history: seq<Event>, i: nat)
    requires Between(start, channel, rows, answers, notified, batches, batchSize, history, i)
    requires i == |channel| || (i < |channel| && channel[i].Shutdown?)
    ensures i == Ahead(channel) && InBatches(batches, batchSize, i)
    ensures Served(start, channel, rows, answers, notified, history, i)
  {
    hide Served, InBatches, StillNew;
  }

  function Sum(sizes: seq<nat>): nat {
    if sizes == [] then 0 else Sum(sizes[..|sizes| - 1]) + sizes[|sizes| - 1]
  }

  /** Batches of at most `batchSize` commands, `n` in all. */
  predicate InBatches(batches: seq<nat>, batchSize: nat, n: nat) {
    Sum(batches) == n && forall b :: 0 <= b < |batches| ==> 1 <= batches[b] <= batchSize
  }

  lemma BatchesNone(batchSize: nat)
    ensures InBatches([], batchSize, 0)
  {
  }

  lemma BatchesAppend(batches: seq<nat>, batchSize: nat, i: nat, n: nat)
    requires InBatches(batches, batchSize, i) && 1 <= n <= batchSize
    ensures InBatches(batches + [n], batchSize, i + n)
  {
    assert (batches + [n])[..|batches|] == batches;
  }

  // ----- channel order ---------------------------------------------------------------------

  predicate Undisturbed(history: seq<Event>) { forall i :: 0 <= i < |history| ==> history[i].Own? }

  lemma {:induction false} UndisturbedRun(rows: Rows, history: seq<Event>)
    requires Undisturbed(history)
    ensures Replay(rows, history) == Exec(rows, Owns(history), Serve)
  {
    hide Serve;
    if history != [] {
      var init, last := history[..|history| - 1], history[|history| - 1];
      UndisturbedRun(rows, init);
      assert last.Own?;
      assert (Owns(init) + [(last.index, last.c)])[..|Owns(init)|] == Owns(init);
    }
  }

  lemma {:induction false} AppliedDiffers(channel: seq<Write>, answers: map<nat, Answer>, n: nat)
    requires n <= Ahead(channel)
    ensures IndicesDiffer(Applied(channel, answers, n))
    ensures forall j :: j in Indices(Applied(channel, answers, n)) ==> j < n
  {
    if n > 0 {
      AppliedDiffers(channel, answers, n - 1);
      var before := Applied(channel, answers, n - 1);
      assert before + [] == before;
      DistinctAppend(before, (n - 1, channel[n - 1].c));
      IndicesAppend(before, (n - 1, channel[n - 1].c));
    }
  }

  /** When no one else touches the shard, what the writer did, publishes first in every batch, is
      what its commands do one by one in the order of the channel. */
  lemma ChannelOrder(rows: Rows, channel: seq<Write>, rows': Rows, answers: map<nat, Answer>,
                     notified: set<nat>, history: seq<Event>, n: nat)
    requires KeysUnique(rows) && n <= Ahead(channel) && Undisturbed(history)
    requires Served(rows, channel, rows', answers, notified, history, n)
    ensures Replay(rows, history) == Exec(rows, Applied(channel, answers, n), Serve)
  {
    UndisturbedRun(rows, history);
    AppliedDiffers(channel, answers, n);
    PutsFirst(rows, Owns(history));
    PutsFirst(rows, Applied(channel, answers, n));
  }
}
