/** The per-topic counters (src/db.rs): a committed batch notes what it did per topic, the notes
    go to a buffer in memory, and a flush moves the buffer to the table in one transaction or
    puts it back. Any number of batches and flushes may be under way at once. */
module Counters {
  import opened Wrappers
  import opened Sharding
  import opened MessageStore
  import opened QueueBatch
  import B = Batching
  import H = ShardBatch

  datatype Delta = Delta(accepted: int, duplicates: int, delivered: int)

  const ZERO := Delta(0, 0, 0)

  function Plus(a: Delta, b: Delta): Delta {
    Delta(a.accepted + b.accepted, a.duplicates + b.duplicates, a.delivered + b.delivered)
  }

  type Ledger = map<string, Delta>

  function At(m: Ledger, t: string): Delta { if t in m then m[t] else ZERO }

  function Add(m: Ledger, t: string, d: Delta): Ledger { m[t := Plus(At(m, t), d)] }

  function Merge(m: Ledger, n: Ledger): Ledger {
    map t | t in m.Keys + n.Keys :: Plus(At(m, t), At(n, t))
  }

  lemma MergeAt(m: Ledger, n: Ledger, t: string)
    ensures At(Merge(m, n), t) == Plus(At(m, t), At(n, t))
  {
  }

  lemma MergeEmpty(m: Ledger)
    ensures Merge(m, map[]) == m && Merge(map[], m) == m
  {
  }

  lemma MergeOne(base: Ledger, pending: Ledger, left: set<string>, t: string)
    requires t in left && left <= pending.Keys
    ensures Merge(base, pending - (left - {t})) == Add(Merge(base, pending - left), t, pending[t])
  {
    var a, b := Merge(base, pending - (left - {t})), Add(Merge(base, pending - left), t, pending[t]);
    assert (pending - (left - {t})).Keys == (pending - left).Keys + {t};
    assert a.Keys == b.Keys;
  }

  // ----- the buffer and the table ----------------------------------------------------------

  class TopicStats {
    var table: Ledger
    var buffer: Ledger

    constructor ()
      ensures table == map[] && buffer == map[]
    {
      table, buffer := map[], map[];
    }

    method Record(topic: string, delta: Delta)
      modifies this`buffer
      ensures buffer == Add(old(buffer), topic, delta)
    {
      buffer := Add(buffer, topic, delta);
    }

    /** Adds every entry of `pending`, in whatever order the entries come. */
    static method AddAll(base: Ledger, pending: Ledger) returns (sum: Ledger)
      ensures sum == Merge(base, pending)
    {
      hide Add, Merge;
      sum := base;
      var left := pending.Keys;
      MergeEmpty(base);
      assert pending - left == map[];
      while left != {}
        invariant left <= pending.Keys && sum == Merge(base, pending - left)
        decreases |left|
      {
        var topic :| topic in left;
        MergeOne(base, pending, left, topic);
        sum := Add(sum, topic, pending[topic]);
        left := left - {topic};
      }
      assert pending - {} == pending;
    }

    /** With no other activity a flush moves all of the buffer or, failing, none of it. */
    method Flush(commits: bool) returns (flushed: nat)
      modifies this
      ensures table == if commits then Merge(old(table), old(buffer)) else old(table)
      ensures buffer == if commits then map[] else old(buffer)
      ensures flushed == if commits then |old(buffer)| else 0
    {
      hide Merge;
      MergeEmpty(table);
      MergeEmpty(buffer);
      var pending := buffer;
      buffer := map[];
      if pending == map[] {
        return 0;
      }
      var written := AddAll(table, pending);
      if commits {
        table := written;
        return |pending|;
      }
      buffer := AddAll(buffer, pending);
      return 0;
    }
  }

  // ----- what a batch counts ---------------------------------------------------------------

  datatype Kind = Insertion | Duplication | Delivery

  /** Something that counts, on a topic. */
  datatype Event = Event(kind: Kind, topic: string)

  function Part(d: Delta, k: Kind): int {
    match k
    case Insertion => d.accepted
    case Duplication => d.duplicates
    case Delivery => d.delivered
  }

  /** What happened, per topic. */
  function Tally(events: multiset<Event>, t: string): Delta {
    Delta(events[Event(Insertion, t)], events[Event(Duplication, t)], events[Event(Delivery, t)])
  }

  /** What a command counts as, on the rows it finds. */
  function EventOf(rows: Rows, c: Command): multiset<Event> {
    match c
    case Put(item, _) =>
      if !Conflicts(rows, item) then multiset{Event(Insertion, item.topic)}
      else if KeyTaken(rows, item.key) then multiset{Event(Duplication, item.topic)}
      else multiset{}
    case Ack(id, lease) =>
      if Held(rows, id, lease) then multiset{Event(Delivery, rows[id].topic)} else multiset{}
  }

  /** What is counted is what was answered: an insertion for each publish told its id is new, a
      duplication for each told another id, and a delivery for each record told it counts. */
  lemma EventIsReply(rows: Rows, c: Command, t: string)
    ensures var reply, events := Serve(rows, c).1, EventOf(rows, c);
      && events[Event(Insertion, t)] == (if c.Put? && reply == Accepted(c.item.id) && c.item.topic == t then 1 else 0)
      && events[Event(Duplication, t)] == (if c.Put? && reply.Duplicate? && c.item.topic == t then 1 else 0)
      && events[Event(Delivery, t)]
         == (if c.Ack? && reply == Acked(true) && c.id in rows && rows[c.id].topic == t then 1 else 0)
  {
    hide KeyTaken;
  }

  /** The rows after a transaction of these commands. */
  ghost function After(rows: Rows, es: seq<(nat, Command)>): Rows { B.Exec(rows, es, Serve).0 }

  ghost function Events(rows: Rows, es: seq<(nat, Command)>): multiset<Event> {
    if es == [] then multiset{}
    else
      var n := |es| - 1;
      Events(rows, es[..n]) + EventOf(After(rows, es[..n]), es[n].1)
  }

  lemma AfterStep(rows: Rows, es: seq<(nat, Command)>, e: (nat, Command))
    ensures After(rows, es + [e]) == Serve(After(rows, es), e.1).0
  {
    ExecSnoc(rows, es, e);
  }

  lemma EventsStep(rows: Rows, es: seq<(nat, Command)>, e: (nat, Command))
    ensures Events(rows, es + [e]) == Events(rows, es) + EventOf(After(rows, es), e.1)
  {
    assert (es + [e])[..|es|] == es;
  }

  ghost predicate Counts(ledger: Ledger, events: multiset<Event>) {
    forall t :: At(ledger, t) == Tally(events, t)
  }

  lemma TallyPlus(events: multiset<Event>, e: Event, t: string)
    ensures Tally(events + multiset{e}, t) == Plus(Tally(events, t), Tally(multiset{e}, t))
    ensures e.topic != t ==> Tally(multiset{e}, t) == ZERO && Tally(events + multiset{e}, t) == Tally(events, t)
  {
  }

  lemma CountOne(ledger: Ledger, events: multiset<Event>, e: Event)
    requires Counts(ledger, events)
    ensures Counts(Add(ledger, e.topic, Tally(multiset{e}, e.topic)), events + multiset{e})
  {
    hide Tally;
    var sum := Add(ledger, e.topic, Tally(multiset{e}, e.topic));
    forall t ensures At(sum, t) == Tally(events + multiset{e}, t) {
      assert At(ledger, t) == Tally(events, t);
      TallyPlus(events, e, t);
    }
  }

  /** The notes of a batch with one reply added. `topic` is that of the row an acknowledgement
      found. */
  function Note(ledger: Ledger, c: Command, reply: Reply, topic: string): Ledger {
    match reply
    case Accepted(_) => if c.Put? then Add(ledger, c.item.topic, Delta(1, 0, 0)) else ledger
    case Duplicate(_) => if c.Put? then Add(ledger, c.item.topic, Delta(0, 1, 0)) else ledger
    case Conflict => ledger
    case Acked(ok) => if ok then Add(ledger, topic, Delta(0, 0, 1)) else ledger
  }

  function TopicOf(rows: Rows, c: Command): string {
    match c
    case Put(item, _) => item.topic
    case Ack(id, _) => if id in rows then rows[id].topic else ""
  }

  lemma NoteCounts(ledger: Ledger, events: multiset<Event>, rows: Rows, c: Command)
    requires Counts(ledger, events)
    ensures Counts(Note(ledger, c, Serve(rows, c).1, TopicOf(rows, c)), events + EventOf(rows, c))
  {
    hide Counts, Add, KeyTaken;
    match c {
      case Put(item, _) =>
        CountOne(ledger, events, Event(Insertion, item.topic));
        CountOne(ledger, events, Event(Duplication, item.topic));
      case Ack(id, lease) =>
        CountOne(ledger, events, Event(Delivery, TopicOf(rows, c)));
    }
    assert events + multiset{} == events;
  }

  /** One shard's transaction in a batch: the rows change as the commands say, one after the
      other, and the notes count exactly what happened besides what they held. */
  method RunGroup(rows: Rows, es: seq<(nat, Command)>, notes: Ledger, ghost before: multiset<Event>)
    returns (rows': Rows, ledger: Ledger)
    requires KeysUnique(rows) && Counts(notes, before)
    ensures rows' == After(rows, es) && KeysUnique(rows')
    ensures Counts(ledger, before + Events(rows, es))
  {
    hide Serve, EventOf, After, Events, Counts, KeysUnique;
    EmptyGroup(rows);
    rows', ledger := rows, notes;
    assert before + multiset{} == before;
    for i := 0 to |es|
      invariant rows' == After(rows, es[..i]) && KeysUnique(rows')
      invariant Counts(ledger, before + Events(rows, es[..i]))
    {
      assert es[..i + 1] == es[..i] + [es[i]];
      AfterStep(rows, es[..i], es[i]);
      EventsStep(rows, es[..i], es[i]);
      NoteCounts(ledger, before + Events(rows, es[..i]), rows', es[i].1);
      assert before + Events(rows, es[..i]) + EventOf(rows', es[i].1)
          == before + (Events(rows, es[..i]) + EventOf(rows', es[i].1));
      var topic := TopicOf(rows', es[i].1);
      var reply;
      rows', reply := ServeOne(rows', es[i].1);
      ledger := Note(ledger, es[i].1, reply, topic);
    }
    assert es[..|es|] == es;
  }

  lemma EmptyGroup(rows: Rows)
    ensures After(rows, []) == rows && Events(rows, []) == multiset{}
  {
  }

  // ----- everything at once ----------------------------------------------------------------

  ghost function Group(shards: seq<Rows>, cmds: seq<Command>, k: nat): seq<(nat, Command)>
    requires |shards| == SHARDS
  {
    B.Select(Entries(cmds), Route(shards), k)
  }

  /** What a batch does in the shards below `f`. */
  ghost function Below(shards: seq<Rows>, cmds: seq<Command>, f: nat): multiset<Event>
    requires |shards| == SHARDS && f <= SHARDS
  {
    if f == 0 then multiset{}
    else Below(shards, cmds, f - 1) + Events(shards[f - 1], Group(shards, cmds, f - 1))
  }

  /** The shards when those below `f` were committed and no other. */
  ghost function Partial(shards: seq<Rows>, cmds: seq<Command>, f: nat): (after: seq<Rows>)
    requires |shards| == SHARDS && f <= SHARDS
    ensures |after| == SHARDS
  {
    OneByOne(shards, cmds).0[..f] + shards[f..]
  }

  /** All shards with the counters of their topics. `batches` are the notes of committed batches
      not yet put in the buffer, `flushes` the buffers taken and not yet committed or put back.
      `noted` and `direct` record what there was to count: commands, and the messages counted
      straight in the table because they never become rows. `lost` records what failed batches
      had committed; they drop their notes. */
  datatype System = System(shards: seq<Rows>, table: Ledger, buffer: Ledger, batches: seq<Ledger>,
                           flushes: seq<Ledger>, noted: multiset<Event>, direct: Ledger,
                           lost: multiset<Event>)

  predicate NoRows(shards: seq<Rows>) {
    |shards| == SHARDS && forall k :: 0 <= k < SHARDS ==> shards[k] == map[]
  }

  /** Nothing published, nothing counted. */
  ghost predicate Initial(s: System) {
    NoRows(s.shards) && s == System(s.shards, map[], map[], [], [], multiset{}, map[], multiset{})
  }

  /** `Commit` and `Fail` are the two ends of a batch: all of it with its notes, or, as the failure
      of shard `f` leaves it, the shards below `f` without them. */
  datatype Step =
    | Commit(cmds: seq<Command>, notes: Ledger)
    | Fail(cmds: seq<Command>, f: nat)
    | Record(batch: nat, topic: string)
    | Recorded(batch: nat)
    | Take
    | Flushed(flush: nat)
    | PutBack(flush: nat)
    | Bump(topic: string, delta: Delta)
    | Other(shard: nat, op: Op)

  ghost predicate Enabled(s: System, step: Step) {
    && |s.shards| == SHARDS
    && match step
       case Commit(cmds, notes) => Counts(notes, Below(s.shards, cmds, SHARDS))
       case Fail(cmds, f) => f < SHARDS && Concerns(s.shards, cmds, f)
       case Record(i, topic) => i < |s.batches| && topic in s.batches[i]
       case Recorded(i) => i < |s.batches| && s.batches[i] == map[]
       case Take => true
       case Flushed(i) => i < |s.flushes|
       case PutBack(i) => i < |s.flushes|
       case Bump(_, _) => true
       case Other(k, op) => k < SHARDS && !op.Enqueue? && !op.Deliver?
  }

  function Without(ls: seq<Ledger>, i: nat): seq<Ledger>
    requires i < |ls|
  {
    ls[..i] + ls[i + 1..]
  }

  ghost function Do(s: System, step: Step): System
    requires Enabled(s, step)
  {
    match step
    case Commit(cmds, notes) =>
      s.(shards := Partial(s.shards, cmds, SHARDS), batches := s.batches + [notes],
         noted := s.noted + Below(s.shards, cmds, SHARDS))
    case Fail(cmds, f) =>
      s.(shards := Partial(s.shards, cmds, f), lost := s.lost + Below(s.shards, cmds, f))
    case Record(i, topic) =>
      s.(buffer := Add(s.buffer, topic, s.batches[i][topic]),
         batches := s.batches[i := s.batches[i] - {topic}])
    case Recorded(i) => s.(batches := Without(s.batches, i))
    case Take => s.(buffer := map[], flushes := s.flushes + [s.buffer])
    case Flushed(i) =>
      s.(table := Merge(s.table, s.flushes[i]), flushes := Without(s.flushes, i))
    case PutBack(i) =>
      s.(buffer := Merge(s.buffer, s.flushes[i]), flushes := Without(s.flushes, i))
    case Bump(topic, delta) =>
      s.(table := Add(s.table, topic, delta), direct := Add(s.direct, topic, delta))
    case Other(k, op) => s.(shards := s.shards[k := Apply(s.shards[k], op)])
  }

  /** One counter of one topic. */
  function Count(m: Ledger, t: string, k: Kind): int { Part(At(m, t), k) }

  function Sum(ls: seq<Ledger>, t: string, k: Kind): int {
    if ls == [] then 0 else Count(ls[0], t, k) + Sum(ls[1..], t, k)
  }

  lemma {:induction false} SumAppend(a: seq<Ledger>, b: seq<Ledger>, t: string, k: Kind)
    ensures Sum(a + b, t, k) == Sum(a, t, k) + Sum(b, t, k)
  {
    hide Count;
    if a == [] {
      assert a + b == b;
    } else {
      SumAppend(a[1..], b, t, k);
      assert (a + b)[1..] == a[1..] + b;
    }
  }

  lemma SumOne(l: Ledger, t: string, k: Kind)
    ensures Sum([l], t, k) == Count(l, t, k)
  {
    hide Count;
  }

  /** A ledger counts for what it holds, wherever it stands. */
  lemma SumSplit(ls: seq<Ledger>, i: nat, t: string, k: Kind)
    requires i < |ls|
    ensures Sum(ls, t, k) == Sum(Without(ls, i), t, k) + Count(ls[i], t, k)
  {
    hide Count, Sum;
    assert ls == ls[..i] + ([ls[i]] + ls[i + 1..]);
    SumAppend(ls[..i], [ls[i]] + ls[i + 1..], t, k);
    SumAppend([ls[i]], ls[i + 1..], t, k);
    SumAppend(ls[..i], ls[i + 1..], t, k);
    SumOne(ls[i], t, k);
  }

  lemma SumUpdate(ls: seq<Ledger>, i: nat, l: Ledger, t: string, k: Kind)
    requires i < |ls|
    ensures Sum(ls[i := l], t, k) == Sum(Without(ls, i), t, k) + Count(l, t, k)
  {
    hide Count, Sum;
    assert Without(ls[i := l], i) == Without(ls, i);
    SumSplit(ls[i := l], i, t, k);
  }

  /** All that is anywhere: table, buffer, notes of batches and flushes under way. */
  function Everywhere(s: System, t: string, k: Kind): int {
    Count(s.table, t, k) + Count(s.buffer, t, k) + Sum(s.batches, t, k) + Sum(s.flushes, t, k)
  }

  /** All there was to count. */
  function Due(s: System, t: string, k: Kind): int {
    s.noted[Event(k, t)] + Count(s.direct, t, k)
  }

  predicate Conserved(s: System, t: string, k: Kind) { Everywhere(s, t, k) == Due(s, t, k) }

  lemma CountAdd(m: Ledger, topic: string, d: Delta, t: string, k: Kind)
    ensures Count(Add(m, topic, d), t, k) == Count(m, t, k) + if t == topic then Part(d, k) else 0
  {
  }

  lemma CountMerge(m: Ledger, n: Ledger, t: string, k: Kind)
    ensures Count(Merge(m, n), t, k) == Count(m, t, k) + Count(n, t, k)
  {
    MergeAt(m, n, t);
    hide Merge, At;
  }

  lemma CountNotes(notes: Ledger, events: multiset<Event>, t: string, k: Kind)
    requires Counts(notes, events)
    ensures Count(notes, t, k) == events[Event(k, t)]
  {
  }

  lemma CommitConserves(s: System, cmds: seq<Command>, notes: Ledger, t: string, k: Kind)
    requires Enabled(s, Commit(cmds, notes)) && Conserved(s, t, k)
    ensures Conserved(Do(s, Commit(cmds, notes)), t, k)
  {
    hide Sum, Count, Below, Partial, Counts;
    SumAppend(s.batches, [notes], t, k);
    SumOne(notes, t, k);
    CountNotes(notes, Below(s.shards, cmds, SHARDS), t, k);
  }

  lemma RecordConserves(s: System, i: nat, topic: string, t: string, k: Kind)
    requires Enabled(s, Record(i, topic)) && Conserved(s, t, k)
    ensures Conserved(Do(s, Record(i, topic)), t, k)
  {
    hide Sum, Add;
    SumSplit(s.batches, i, t, k);
    SumUpdate(s.batches, i, s.batches[i] - {topic}, t, k);
    CountAdd(s.buffer, topic, s.batches[i][topic], t, k);
  }

  lemma FlushConserves(s: System, step: Step, t: string, k: Kind)
    requires Enabled(s, step) && Conserved(s, t, k)
    requires step.Take? || step.Flushed? || step.PutBack?
    ensures Conserved(Do(s, step), t, k)
  {
    hide Sum, Merge, Count;
    match step {
      case Take =>
        SumAppend(s.flushes, [s.buffer], t, k);
        SumOne(s.buffer, t, k);
        CountNone(t, k);
      case Flushed(i) =>
        SumSplit(s.flushes, i, t, k);
        CountMerge(s.table, s.flushes[i], t, k);
      case PutBack(i) =>
        SumSplit(s.flushes, i, t, k);
        CountMerge(s.buffer, s.flushes[i], t, k);
    }
  }

  lemma CountNone(t: string, k: Kind)
    ensures Count(map[], t, k) == 0
  {
  }

  lemma StepConserves(s: System, step: Step, t: string, k: Kind)
    requires Enabled(s, step) && Conserved(s, t, k)
    ensures Conserved(Do(s, step), t, k)
  {
    hide Sum, Merge, Count, Add, Below, Partial, Apply;
    match step {
      case Commit(cmds, notes) => CommitConserves(s, cmds, notes, t, k);
      case Record(i, topic) => RecordConserves(s, i, topic, t, k);
      case Recorded(i) =>
        SumSplit(s.batches, i, t, k);
        CountNone(t, k);
      case Bump(topic, delta) =>
        CountAdd(s.table, topic, delta, t, k);
        CountAdd(s.direct, topic, delta, t, k);
      case Other(_, _) =>
      case Fail(_, _) =>
      case _ => FlushConserves(s, step, t, k);
    }
  }

  // ----- counters and rows -----------------------------------------------------------------

  function RowsOf(rows: Rows, t: string): set<string> { set id | id in rows && rows[id].topic == t }

  function DeliveredOf(rows: Rows, t: string): set<string> {
    set id | id in rows && rows[id].topic == t && rows[id].status.Delivered?
  }

  /** The rows grew by the insertions, and the delivered ones by the deliveries. */
  predicate Grew(rows: Rows, rows': Rows, events: multiset<Event>, t: string) {
    && |RowsOf(rows', t)| == |RowsOf(rows, t)| + events[Event(Insertion, t)]
    && |DeliveredOf(rows', t)| == |DeliveredOf(rows, t)| + events[Event(Delivery, t)]
  }

  function IfOn(topic: string, t: string, id: string): set<string> { if topic == t then {id} else {} }

  lemma InsertedRow(rows: Rows, id: string, r: Row, t: string)
    requires id !in rows && !r.status.Delivered?
    ensures RowsOf(rows[id := r], t) == RowsOf(rows, t) + IfOn(r.topic, t, id)
    ensures id !in RowsOf(rows, t)
    ensures DeliveredOf(rows[id := r], t) == DeliveredOf(rows, t)
  {
  }

  lemma DeliveredRow(rows: Rows, id: string, t: string)
    requires id in rows && rows[id].status.Processing?
    ensures var rows' := rows[id := Closed(rows[id], Delivered)];
      && RowsOf(rows', t) == RowsOf(rows, t)
      && DeliveredOf(rows', t) == DeliveredOf(rows, t) + IfOn(rows[id].topic, t, id)
    ensures id !in DeliveredOf(rows, t)
  {
  }

  lemma PutGrew(rows: Rows, item: Item, now: int, t: string)
    ensures Grew(rows, Apply(rows, Enqueue(item, now)), EventOf(rows, Put(item, now)), t)
  {
    hide KeyTaken, RowsOf, DeliveredOf;
    if !Conflicts(rows, item) {
      InsertedRow(rows, item.id, NewRow(item, now), t);
    }
  }

  lemma AckGrew(rows: Rows, id: string, lease: string, t: string)
    ensures Grew(rows, Apply(rows, Deliver(id, lease)), EventOf(rows, Ack(id, lease)), t)
  {
    hide RowsOf, DeliveredOf;
    if Held(rows, id, lease) {
      DeliveredRow(rows, id, t);
    }
  }

  /** The events of a shard's part of a batch are the growth of its rows. */
  lemma {:induction false} GroupGrew(rows: Rows, es: seq<(nat, Command)>, t: string)
    ensures Grew(rows, After(rows, es), Events(rows, es), t)
  {
    hide RowsOf, DeliveredOf, EventOf, Apply, PutReply;
    if es != [] {
      var init, last := es[..|es| - 1], es[|es| - 1];
      assert es == init + [last];
      GroupGrew(rows, init, t);
      AfterStep(rows, init, last);
      EventsStep(rows, init, last);
      var mid := After(rows, init);
      match last.1 {
        case Put(item, now) => PutGrew(mid, item, now, t);
        case Ack(id, lease) => AckGrew(mid, id, lease, t);
      }
    }
  }

  /** Claims, renewals, failures, releases, drops and restarts move no counted thing. */
  lemma OtherGrew(rows: Rows, op: Op, t: string)
    requires !op.Enqueue? && !op.Deliver?
    ensures Grew(rows, Apply(rows, op), multiset{}, t)
  {
    var rows' := Apply(rows, op);
    assert rows'.Keys == rows.Keys;
    forall id | id in rows
      ensures rows'[id].topic == rows[id].topic && (rows'[id].status.Delivered? <==> rows[id].status.Delivered?)
    {
      RowsPersist(rows, op, id);
    }
    assert RowsOf(rows', t) == RowsOf(rows, t);
    assert DeliveredOf(rows', t) == DeliveredOf(rows, t);
  }

  // ----- all shards ------------------------------------------------------------------------

  /** The rows of a topic over all shards, and the delivered ones. */
  function RowsIn(shards: seq<Rows>, t: string): nat {
    if shards == [] then 0 else |RowsOf(shards[0], t)| + RowsIn(shards[1..], t)
  }

  function DeliveredIn(shards: seq<Rows>, t: string): nat {
    if shards == [] then 0 else |DeliveredOf(shards[0], t)| + DeliveredIn(shards[1..], t)
  }

  /** The same for all shards together. */
  predicate GrewIn(shards: seq<Rows>, shards': seq<Rows>, events: multiset<Event>, t: string) {
    && RowsIn(shards', t) == RowsIn(shards, t) + events[Event(Insertion, t)]
    && DeliveredIn(shards', t) == DeliveredIn(shards, t) + events[Event(Delivery, t)]
  }

  lemma {:induction false} UpdateGrew(shards: seq<Rows>, k: nat, rows: Rows, events: multiset<Event>, t: string)
    requires k < |shards| && Grew(shards[k], rows, events, t)
    ensures GrewIn(shards, shards[k := rows], events, t)
  {
    hide RowsOf, DeliveredOf;
    if k > 0 {
      UpdateGrew(shards[1..], k - 1, rows, events, t);
      assert shards[k := rows][1..] == shards[1..][k - 1 := rows];
    } else {
      assert shards[k := rows][1..] == shards[1..];
    }
  }

  lemma PartialNone(shards: seq<Rows>, cmds: seq<Command>)
    requires |shards| == SHARDS
    ensures Partial(shards, cmds, 0) == shards
  {
  }

  lemma PartialStep(shards: seq<Rows>, cmds: seq<Command>, f: nat)
    requires |shards| == SHARDS && f < SHARDS
    ensures Partial(shards, cmds, f)[f] == shards[f]
    ensures Partial(shards, cmds, f + 1) == Partial(shards, cmds, f)[f := After(shards[f], Group(shards, cmds, f))]
  {
    GoalAt(shards, cmds, f);
    hide OneByOne, After, Group;
    var goal := OneByOne(shards, cmds).0;
    assert goal[..f + 1] == goal[..f] + [goal[f]] && shards[f..] == [shards[f]] + shards[f + 1..];
  }

  lemma GoalAt(shards: seq<Rows>, cmds: seq<Command>, k: nat)
    requires |shards| == SHARDS && k < SHARDS
    ensures OneByOne(shards, cmds).0[k] == After(shards[k], Group(shards, cmds, k))
  {
    ShardOfBatch(shards, cmds, k);
  }

  /** The sixteen transactions of a batch that commits: each changes its own shard, and the notes
      they share are those of a `Commit`. */
  method RunShards(shards: seq<Rows>, groups: seq<seq<(nat, Command)>>, ghost cmds: seq<Command>)
    returns (after: seq<Rows>, notes: Ledger)
    requires |shards| == |groups| == SHARDS && AllKeysUnique(shards)
    requires forall k :: 0 <= k < SHARDS ==> groups[k] == Group(shards, cmds, k)
    ensures after == Partial(shards, cmds, SHARDS) && Counts(notes, Below(shards, cmds, SHARDS))
  {
    NothingCounted();
    hide Group, Counts, Partial, Below, After, Events, KeysUnique;
    PartialNone(shards, cmds);
    BelowNone(shards, cmds);
    after, notes := shards, map[];
    for k := 0 to SHARDS
      invariant after == Partial(shards, cmds, k) && Counts(notes, Below(shards, cmds, k))
    {
      PartialStep(shards, cmds, k);
      BelowStep(shards, cmds, k + 1);
      var rows;
      rows, notes := RunGroup(after[k], groups[k], notes, Below(shards, cmds, k));
      after := after[k := rows];
    }
  }

  lemma NothingCounted()
    ensures Counts(map[], multiset{})
  {
  }

  /** What was committed of a batch is what the rows grew by. */
  lemma {:induction false} PartialGrew(shards: seq<Rows>, cmds: seq<Command>, f: nat, t: string)
    requires |shards| == SHARDS && f <= SHARDS
    ensures GrewIn(shards, Partial(shards, cmds, f), Below(shards, cmds, f), t)
  {
    hide Partial, After, Events, Group, RowsIn, DeliveredIn, Grew;
    if f == 0 {
      PartialNone(shards, cmds);
    } else {
      PartialGrew(shards, cmds, f - 1, t);
      PartialStep(shards, cmds, f - 1);
      GroupGrew(shards[f - 1], Group(shards, cmds, f - 1), t);
      var before := Partial(shards, cmds, f - 1);
      UpdateGrew(before, f - 1, After(shards[f - 1], Group(shards, cmds, f - 1)),
                 Events(shards[f - 1], Group(shards, cmds, f - 1)), t);
    }
  }

  /** Insertions are the rows there are, deliveries the rows delivered. */
  predicate Matches(shards: seq<Rows>, events: multiset<Event>, t: string) {
    events[Event(Insertion, t)] == RowsIn(shards, t) && events[Event(Delivery, t)] == DeliveredIn(shards, t)
  }

  lemma StepMatches(s: System, step: Step, t: string)
    requires Enabled(s, step) && Matches(s.shards, s.noted + s.lost, t)
    ensures Matches(Do(s, step).shards, Do(s, step).noted + Do(s, step).lost, t)
  {
    hide Partial, Below, RowsIn, DeliveredIn, Apply, Grew;
    match step {
      case Commit(cmds, notes) => PartialGrew(s.shards, cmds, SHARDS, t);
      case Fail(cmds, f) => PartialGrew(s.shards, cmds, f, t);
      case Other(k, op) =>
        OtherGrew(s.shards[k], op, t);
        UpdateGrew(s.shards, k, Apply(s.shards[k], op), multiset{}, t);
      case _ =>
    }
  }

  // ----- every run -------------------------------------------------------------------------

  ghost predicate Follows(s: System, step: Step, s': System) {
    Enabled(s, step) && s' == Do(s, step)
  }

  ghost predicate IsRun(states: seq<System>, steps: seq<Step>) {
    && |states| == |steps| + 1 && Initial(states[0])
    && forall k :: 0 <= k < |steps| ==> Follows(states[k], steps[k], states[k + 1])
  }

  /** In every run and for every topic, what is in the table, in the buffer and under way is what
      there was to count, no more and no less. */
  lemma {:induction false} NothingLost(states: seq<System>, steps: seq<Step>, i: nat, t: string, k: Kind)
    requires IsRun(states, steps) && i < |states|
    ensures Conserved(states[i], t, k)
  {
    hide Enabled, Do;
    if i > 0 {
      NothingLost(states, steps, i - 1, t, k);
      assert Follows(states[i - 1], steps[i - 1], states[i - 1 + 1]);
      hide Conserved;
      StepConserves(states[i - 1], steps[i - 1], t, k);
    } else {
      CountNone(t, k);
    }
  }

  /** In every run the insertions counted are the rows there are, and the deliveries counted the
      rows delivered. */
  lemma {:induction false} EventsMatchRows(states: seq<System>, steps: seq<Step>, i: nat, t: string)
    requires IsRun(states, steps) && i < |states|
    ensures Matches(states[i].shards, states[i].noted + states[i].lost, t)
  {
    hide Enabled, Do;
    if i > 0 {
      EventsMatchRows(states, steps, i - 1, t);
      assert Follows(states[i - 1], steps[i - 1], states[i - 1 + 1]);
      hide Matches;
      StepMatches(states[i - 1], steps[i - 1], t);
    } else {
      NoneIn(states[0].shards, t);
    }
  }

  lemma {:induction false} NoneIn(shards: seq<Rows>, t: string)
    requires forall i :: 0 <= i < |shards| ==> shards[i] == map[]
    ensures RowsIn(shards, t) == 0 && DeliveredIn(shards, t) == 0
  {
    if shards != [] {
      assert RowsOf(shards[0], t) == {} && DeliveredOf(shards[0], t) == {};
      NoneIn(shards[1..], t);
    }
  }

  ghost predicate Quiet(s: System) { s.buffer == map[] && s.batches == [] && s.flushes == [] }

  lemma AtRest(states: seq<System>, steps: seq<Step>, i: nat, t: string, k: Kind)
    requires IsRun(states, steps) && i < |states| && Quiet(states[i])
    ensures Count(states[i].table, t, k) == states[i].noted[Event(k, t)] + Count(states[i].direct, t, k)
  {
    hide Count;
    NothingLost(states, steps, i, t, k);
    CountNone(t, k);
  }

  /** At rest the table tells, for every topic, how many rows were inserted, how many publishes
      were duplicates and how many rows were delivered, plus what was counted directly, less what
      failed batches had committed. */
  lemma AtRestCounters(states: seq<System>, steps: seq<Step>, i: nat, t: string)
    requires IsRun(states, steps) && i < |states| && Quiet(states[i])
    ensures var s := states[i]; var table, direct := At(s.table, t), At(s.direct, t);
      && table.accepted == direct.accepted + RowsIn(s.shards, t) - s.lost[Event(Insertion, t)]
      && table.duplicates == direct.duplicates + s.noted[Event(Duplication, t)]
      && table.delivered == direct.delivered + DeliveredIn(s.shards, t) - s.lost[Event(Delivery, t)]
  {
    EventsMatchRows(states, steps, i, t);
    AtRest(states, steps, i, t, Insertion);
    AtRest(states, steps, i, t, Duplication);
    AtRest(states, steps, i, t, Delivery);
  }

  // ----- batches of one shard --------------------------------------------------------------

  /** All commands belong to the same shard. */
  predicate OneShard(shards: seq<Rows>, cmds: seq<Command>)
    requires |shards| == SHARDS
  {
    forall i, j :: 0 <= i < |cmds| && 0 <= j < |cmds| ==> ShardOf(shards, cmds[i]) == ShardOf(shards, cmds[j])
  }

  lemma EmptyBelow(shards: seq<Rows>, cmds: seq<Command>, k: nat)
    requires |shards| == SHARDS && k < SHARDS && !Concerns(shards, cmds, k)
    ensures Group(shards, cmds, k) == [] && Events(shards[k], Group(shards, cmds, k)) == multiset{}
  {
    if Group(shards, cmds, k) != [] { SomeCommand(cmds, Route(shards), k); }
  }

  /** A failed batch of one shard had committed nothing. */
  lemma {:induction false} OneShardLosesNothing(shards: seq<Rows>, cmds: seq<Command>, f: nat, g: nat)
    requires |shards| == SHARDS && g <= f < SHARDS && OneShard(shards, cmds) && Concerns(shards, cmds, f)
    ensures Below(shards, cmds, g) == multiset{}
  {
    hide OneShard, Concerns, Events, Group;
    if g > 0 {
      OneShardLosesNothing(shards, cmds, f, g - 1);
      OnlyShard(shards, cmds, f, g - 1);
      EmptyBelow(shards, cmds, g - 1);
    }
  }

  lemma OnlyShard(shards: seq<Rows>, cmds: seq<Command>, f: nat, k: nat)
    requires |shards| == SHARDS && OneShard(shards, cmds) && Concerns(shards, cmds, f) && k != f
    ensures !Concerns(shards, cmds, k)
  {
  }

  ghost predicate FailsWithinOne(s: System, step: Step) {
    step.Fail? && |s.shards| == SHARDS ==> OneShard(s.shards, step.cmds)
  }

  lemma {:induction false} NothingEverLost(states: seq<System>, steps: seq<Step>, i: nat)
    requires IsRun(states, steps) && i < |states|
    requires forall j :: 0 <= j < i ==> FailsWithinOne(states[j], steps[j])
    ensures states[i].lost == multiset{}
  {
    if i > 0 {
      NothingEverLost(states, steps, i - 1);
      assert Follows(states[i - 1], steps[i - 1], states[i - 1 + 1]);
      assert FailsWithinOne(states[i - 1], steps[i - 1]);
      hide Below, Partial;
      if steps[i - 1].Fail? {
        OneShardLosesNothing(states[i - 1].shards, steps[i - 1].cmds, steps[i - 1].f, steps[i - 1].f);
      }
    }
  }

  /** What a writer issues does. */
  lemma HomeIsOneShard(shards: seq<Rows>, cmds: seq<Command>, k: nat)
    requires |shards| == SHARDS && forall i :: 0 <= i < |cmds| ==> H.Home(cmds[i], k)
    ensures OneShard(shards, cmds)
  {
    forall i | 0 <= i < |cmds| ensures ShardOf(shards, cmds[i]) == k { H.HomeShard(shards, cmds[i], k); }
  }

  /** If every batch that fails lies within one shard, the counters at rest are exact. */
  lemma AtRestExact(states: seq<System>, steps: seq<Step>, i: nat, t: string)
    requires IsRun(states, steps) && i < |states| && Quiet(states[i])
    requires forall j :: 0 <= j < i ==> FailsWithinOne(states[j], steps[j])
    ensures var s := states[i]; var table, direct := At(s.table, t), At(s.direct, t);
      && table.accepted == direct.accepted + RowsIn(s.shards, t)
      && table.duplicates == direct.duplicates + s.noted[Event(Duplication, t)]
      && table.delivered == direct.delivered + DeliveredIn(s.shards, t)
  {
    AtRestCounters(states, steps, i, t);
    NothingEverLost(states, steps, i);
  }

  // ----- batches of several shards ---------------------------------------------------------

  /** A batch of publishes with ids that are new to their shard and to one another. */
  predicate NewPublishes(shards: seq<Rows>, cmds: seq<Command>)
    requires |shards| == SHARDS
  {
    && (forall i :: 0 <= i < |cmds| ==> cmds[i].Put? && cmds[i].item.id !in shards[ShardOf(shards, cmds[i])])
    && forall i, j :: 0 <= i < j < |cmds| ==> cmds[i].item.id != cmds[j].item.id
  }

  /** The first command of a transaction finds the rows as they were, and counts. */
  lemma {:induction false} FirstCounts(rows: Rows, es: seq<(nat, Command)>)
    requires es != [] && es[0].1.Put? && es[0].1.item.id !in rows
    ensures Events(rows, es) != multiset{}
  {
    if |es| == 1 {
      assert es[..0] == [] && EventOf(rows, es[0].1) != multiset{};
      assert After(rows, []) == rows;
    } else {
      var init := es[..|es| - 1];
      FirstCounts(rows, init);
      var e :| e in Events(rows, init);
      assert e in Events(rows, es);
    }
  }

  lemma {:induction false} BelowGrows(shards: seq<Rows>, cmds: seq<Command>, g: nat, f: nat)
    requires |shards| == SHARDS && g <= f <= SHARDS
    ensures Below(shards, cmds, g) <= Below(shards, cmds, f)
  {
    hide Events, Group;
    if g < f { BelowGrows(shards, cmds, g, f - 1); }
  }

  lemma {:induction false} GroupMembers(es: seq<(nat, Command)>, route: Command -> nat, k: nat, j: nat)
    returns (i: nat)
    requires j < |B.Select(es, route, k)|
    ensures i < |es| && route(es[i].1) == k && B.Select(es, route, k)[j] == es[i]
  {
    var init := es[..|es| - 1];
    if j < |B.Select(init, route, k)| {
      i := GroupMembers(init, route, k, j);
    } else {
      i := |es| - 1;
    }
  }

  /** A shard that a batch of new publishes concerns has something to count. */
  lemma ConcernedCounts(shards: seq<Rows>, cmds: seq<Command>, k: nat)
    requires |shards| == SHARDS && NewPublishes(shards, cmds) && k < SHARDS && Concerns(shards, cmds, k)
    ensures Events(shards[k], Group(shards, cmds, k)) != multiset{}
  {
    hide Events, ShardOf, B.Select;
    var i :| 0 <= i < |cmds| && ShardOf(shards, cmds[i]) == k;
    B.SelectMembers(Entries(cmds), Route(shards), k);
    var group := Group(shards, cmds, k);
    assert Entries(cmds)[i].0 in B.Indices(group);
    var first := GroupMembers(Entries(cmds), Route(shards), k, 0);
    FirstCounts(shards[k], group);
  }

  /** A failure on a later shard leaves something committed and not counted. */
  lemma LaterFailureLoses(shards: seq<Rows>, cmds: seq<Command>, k: nat, f: nat)
    requires |shards| == SHARDS && NewPublishes(shards, cmds) && k < f < SHARDS && Concerns(shards, cmds, k)
    ensures Below(shards, cmds, f) != multiset{}
  {
    hide Events, Group, NewPublishes, Concerns;
    ConcernedCounts(shards, cmds, k);
    BelowGrows(shards, cmds, k + 1, f);
    var e :| e in Events(shards[k], Group(shards, cmds, k));
    assert e in Below(shards, cmds, k + 1);
  }

  /** For publishes with new ids, one shard is also what it takes: no failure can lose a count if
      and only if the batch lies within one shard. */
  lemma LosesNothingExactly(shards: seq<Rows>, cmds: seq<Command>)
    requires |shards| == SHARDS && NewPublishes(shards, cmds)
    ensures OneShard(shards, cmds) <==>
      forall f :: 0 <= f < SHARDS && Concerns(shards, cmds, f) ==> Below(shards, cmds, f) == multiset{}
  {
    hide Below, NewPublishes;
    if OneShard(shards, cmds) {
      forall f | 0 <= f < SHARDS && Concerns(shards, cmds, f) ensures Below(shards, cmds, f) == multiset{} {
        OneShardLosesNothing(shards, cmds, f, f);
      }
    } else {
      var i, j :| 0 <= i < |cmds| && 0 <= j < |cmds| && ShardOf(shards, cmds[i]) != ShardOf(shards, cmds[j]);
      var a, b := ShardOf(shards, cmds[i]), ShardOf(shards, cmds[j]);
      var k, f := if a < b then a else b, if a < b then b else a;
      assert Concerns(shards, cmds, k) && Concerns(shards, cmds, f);
      LaterFailureLoses(shards, cmds, k, f);
    }
  }

  // ----- an example ------------------------------------------------------------------------

  function Publish(id: string, topic: string): Command { Put(Item(id, None, topic, []), 0) }

  /** Two publishes, one to a topic of shard 5 and one to a topic of shard 12. */
  const TWO := [Publish("1", "b"), Publish("2", "a")]

  lemma TwoShards()
    ensures TopicShard("b") == 5 && TopicShard("a") == 12
  {
    hide Xor, LowBits, TopicShard;
    ShardByLowBits("a");
    ShardByLowBits("b");
    XorFour(5, 1);
    XorFour(5, 2);
    LowStep("a", 5, 12);
    LowStep("b", 5, 5);
    assert "a"[1..] == "" && "b"[1..] == "";
    LowNone(12);
    LowNone(5);
  }

  /** The database makes this failure happen: on empty shards, with shard 12 failing, the batch
      ends as the step `Fail` says, the first publish committed and the second not. */
  method FailOnSecond(db: Database) returns (r: Outcome)
    requires db.Valid() && NoRows(db.shards)
    modifies db
    ensures r == Outcome.Err(12) && Concerns(old(db.shards), TWO, 12)
    ensures db.shards == Partial(old(db.shards), TWO, 12)
  {
    ghost var before := db.shards;
    TwoRoutes(before);
    hide ShardOf, OneByOne, AllNowhere, Concerns, TopicShard, Partial;
    r := db.Batch(TWO, {12});
    if r.Err? { CommittedIsPartial(before, TWO, db.shards, r.shard); }
  }

  lemma CommittedIsPartial(before: seq<Rows>, cmds: seq<Command>, after: seq<Rows>, f: nat)
    requires |before| == SHARDS && f < SHARDS && CommittedBelow(before, OneByOne(before, cmds).0, after, f)
    ensures after == Partial(before, cmds, f)
  {
    hide OneByOne;
  }

  lemma TwoHomes(shards: seq<Rows>)
    requires NoRows(shards)
    ensures ShardOf(shards, TWO[0]) == 5 && ShardOf(shards, TWO[1]) == 12
  {
    TwoShards();
    hide TopicShard;
  }

  lemma SelectTwo(a: (nat, Command), b: (nat, Command), route: Command -> nat, k: nat)
    ensures B.Select([a, b], route, k)
      == (if route(a.1) == k then [a] else []) + (if route(b.1) == k then [b] else [])
  {
    assert [a, b][..1] == [a] && [a][..0] == [];
    assert B.Select([], route, k) == [];
    assert B.Select([a], route, k) == if route(a.1) == k then [a] else [];
  }

  lemma TwoGroups(shards: seq<Rows>)
    requires NoRows(shards)
    ensures Group(shards, TWO, 5) == [(0, TWO[0])] && Group(shards, TWO, 12) == [(1, TWO[1])]
  {
    hide ShardOf, B.Select;
    TwoHomes(shards);
    var a, b := (0, TWO[0]), (1, TWO[1]);
    assert Entries(TWO) == [a, b];
    SelectTwo(a, b, Route(shards), 5);
    SelectTwo(a, b, Route(shards), 12);
  }

  lemma AcceptedAlone(index: nat, id: string, topic: string)
    ensures B.Exec(map[], [(index, Publish(id, topic))], Serve).1 == map[index := Accepted(id)]
  {
    var es := [(index, Publish(id, topic))];
    assert |es[..0]| == 0;
    assert B.Exec(map[], es[..0], Serve) == (map[], map[]);
  }

  lemma TwoReplies(shards: seq<Rows>)
    requires NoRows(shards)
    ensures !HasConflict(OneByOne(shards, TWO).1)
  {
    TwoHomes(shards);
    TwoGroups(shards);
    AcceptedAlone(0, "1", "b");
    AcceptedAlone(1, "2", "a");
    ShardOfBatch(shards, TWO, 5);
    ShardOfBatch(shards, TWO, 12);
    B.InOrderKeys(shards, Entries(TWO), Route(shards), Serve);
    hide OneByOne, B.Exec, ShardOf, B.Select, Group;
    var goal := OneByOne(shards, TWO).1;
    assert 0 in goal && goal[0] == Accepted("1") && 1 in goal && goal[1] == Accepted("2");
    forall n | n in goal ensures !goal[n].Conflict? { assert n in B.Indices(Entries(TWO)); }
  }

  lemma TwoRoutes(shards: seq<Rows>)
    requires NoRows(shards)
    ensures ShardOf(shards, TWO[0]) == 5 && ShardOf(shards, TWO[1]) == 12
    ensures Concerns(shards, TWO, 12) && Concerns(shards, TWO, 5)
    ensures NewPublishes(shards, TWO) && !HasConflict(OneByOne(shards, TWO).1)
    ensures !AllNowhere(shards, Group(shards, TWO, 12))
  {
    TwoHomes(shards);
    hide TopicShard, OneByOne, ShardOf;
    TwoReplies(shards);
    TwoGroups(shards);
    assert !Nowhere(shards, Group(shards, TWO, 12)[0].1);
  }

  /** The run of that one failure: topic `b` has a row and no count. */
  lemma FailedBatchIsNotCounted(start: System)
    requires Initial(start)
    ensures Enabled(start, Step.Fail(TWO, 12))
    ensures var end := Do(start, Step.Fail(TWO, 12));
      && IsRun([start, end], [Step.Fail(TWO, 12)]) && Quiet(end)
      && RowsIn(end.shards, "b") == 1 && At(end.table, "b") == ZERO
  {
    TwoRoutes(start.shards);
    hide ShardOf, TopicShard, OneByOne, AllNowhere, Concerns, NewPublishes, Below, Partial, RowsIn, DeliveredIn;
    PartialGrew(start.shards, TWO, 12, "b");
    NoneIn(start.shards, "b");
    TwoEvents(start.shards);
    var end := Do(start, Step.Fail(TWO, 12));
    assert Follows(start, Step.Fail(TWO, 12), end);
  }

  lemma TwoEvents(shards: seq<Rows>)
    requires NoRows(shards)
    ensures Below(shards, TWO, 12)[Event(Insertion, "b")] == 1
  {
    hide ShardOf, Below;
    OnlyBelow(shards, 12);
  }

  lemma BelowStep(shards: seq<Rows>, cmds: seq<Command>, f: nat)
    requires |shards| == SHARDS && 0 < f <= SHARDS
    ensures Below(shards, cmds, f) == Below(shards, cmds, f - 1) + Events(shards[f - 1], Group(shards, cmds, f - 1))
  {
  }

  lemma BelowNone(shards: seq<Rows>, cmds: seq<Command>)
    requires |shards| == SHARDS
    ensures Below(shards, cmds, 0) == multiset{}
  {
  }

  lemma FirstEvent(shards: seq<Rows>)
    requires NoRows(shards)
    ensures Events(shards[5], Group(shards, TWO, 5)) == multiset{Event(Insertion, "b")}
  {
    hide Events, Group;
    TwoGroups(shards);
    InsertedAlone(0, "1", "b");
  }

  /** Below shard 12 the only event is the insertion in shard 5. */
  lemma {:induction false} OnlyBelow(shards: seq<Rows>, f: nat)
    requires NoRows(shards) && f <= 12
    ensures Below(shards, TWO, f) == if f <= 5 then multiset{} else multiset{Event(Insertion, "b")}
  {
    hide Below, Events, Group, Concerns;
    if f == 0 {
      BelowNone(shards, TWO);
    } else {
      OnlyBelow(shards, f - 1);
      BelowStep(shards, TWO, f);
      if f == 6 {
        FirstEvent(shards);
      } else {
        NotConcerned(shards, f - 1);
        EmptyBelow(shards, TWO, f - 1);
      }
    }
  }

  lemma NotConcerned(shards: seq<Rows>, k: nat)
    requires NoRows(shards) && k != 5 && k != 12
    ensures !Concerns(shards, TWO, k)
  {
    TwoHomes(shards);
    hide ShardOf;
  }

  lemma InsertedAlone(index: nat, id: string, topic: string)
    ensures Events(map[], [(index, Publish(id, topic))]) == multiset{Event(Insertion, topic)}
  {
    var es := [(index, Publish(id, topic))];
    assert es[..0] == [] && After(map[], []) == map[];
    assert EventOf(map[], Publish(id, topic)) == multiset{Event(Insertion, topic)};
  }
}
