/** Waking subscribers (src/writer.rs, src/delivery.rs). A writer commits messages and then bumps
    the generation of the topic's channel and of the global channel; a subscriber scans for
    messages and, finding none, waits for a generation it has not seen. No message is missed in
    between, although the wildcard scan visits the sixteen shards one after the other and
    neither the writers nor other subscribers stand still. */
module WakeUp {
  import opened Wrappers
  import opened Sharding
  import opened Topic

  datatype Message = Message(id: nat, topic: string, readyAt: int)

  /** Where the subscriber's loop is. A scan starts at shard `start`; `todo` are the topics listed
      in the current shard and not tried yet. */
  datatype Phase =
    | Starting
    | Idle
    | Scanning(start: nat, offset: nat, listed: bool, todo: seq<string>)
    | Busy
    | Waiting

  /** Generations of the channels that exist. */
  datatype Channels = Channels(topics: map<string, nat>, global: Option<nat>)

  datatype State = State(
    clock: int,
    unclaimed: set<Message>,       // committed and never claimed by anyone
    topicPending: set<Message>,    // committed, topic channel not bumped for it yet
    globalPending: set<Message>,   // committed, global channel not bumped for it yet
    channels: Channels,
    filter: string,
    seen: nat,
    phase: Phase)

  // ----- channels --------------------------------------------------------------------------

  function Subscribed(c: Channels, filter: string): Channels {
    if IsWildcardFilter(filter)
    then (if c.global.Some? then c else c.(global := Some(0)))
    else (if filter in c.topics then c else c.(topics := c.topics[filter := 0]))
  }

  predicate Open(c: Channels, filter: string) {
    if IsWildcardFilter(filter) then c.global.Some? else filter in c.topics
  }

  function Generation(c: Channels, filter: string): nat
    requires Open(c, filter)
  {
    if IsWildcardFilter(filter) then c.global.value else c.topics[filter]
  }

  function TopicBumped(c: Channels, topic: string): Channels {
    if topic in c.topics then c.(topics := c.topics[topic := c.topics[topic] + 1]) else c
  }

  function GlobalBumped(c: Channels): Channels {
    if c.global.Some? then c.(global := Some(c.global.value + 1)) else c
  }

  /** The two maps behind their locks. */
  class QueueNotifications {
    var channels: Channels

    constructor ()
      ensures channels == Channels(map[], None)
    {
      channels := Channels(map[], None);
    }

    /** A new receiver has seen the current generation. */
    method Subscribe(filter: string) returns (seen: nat)
      modifies this
      ensures channels == Subscribed(old(channels), filter)
      ensures Open(channels, filter) && seen == Generation(channels, filter)
      ensures forall f :: Open(old(channels), f) ==>
        Open(channels, f) && Generation(channels, f) == Generation(old(channels), f)
    {
      if IsWildcardFilter(filter) {
        if channels.global.None? {
          channels := channels.(global := Some(0));
        }
        seen := channels.global.value;
      } else {
        if filter !in channels.topics {
          channels := channels.(topics := channels.topics[filter := 0]);
        }
        seen := channels.topics[filter];
      }
    }

    /** Every open channel the message may matter to moves on; no other one does. */
    method Notify(topic: string)
      modifies this
      ensures channels == GlobalBumped(TopicBumped(old(channels), topic))
      ensures forall f :: Open(old(channels), f) ==>
        && Open(channels, f)
        && Generation(channels, f) == Generation(old(channels), f)
             + if IsWildcardFilter(f) || f == topic then 1 else 0
    {
      channels := TopicBumped(channels, topic);
      channels := GlobalBumped(channels);
    }
  }

  // ----- steps -----------------------------------------------------------------------------

  datatype Step =
    | Tick(to: int)
    | Commit(batch: set<Message>)
    | NotifyTopic(m: Message)
    | NotifyGlobal(m: Message)
    | OthersClaim(taken: set<Message>)
    | OthersSubscribe(other: string)
    | Subscribe
    | ClaimExact(taken: set<Message>)
    | BeginScan(start: nat)
    | List(listing: seq<string>)
    | Try(taken: set<Message>)
    | NextShard
    | Resume
    | Wake
    | Timeout

  /** Unclaimed messages of a topic that the claim statement would select now. */
  function Available(s: State, topic: string): set<Message> {
    set m | m in s.unclaimed && m.topic == topic && m.readyAt <= s.clock
  }

  ghost predicate Enabled(s: State, a: Step) {
    match a
    case Tick(to) => to >= s.clock
    case Commit(batch) => forall m :: m in batch ==> m.readyAt <= s.clock
    case NotifyTopic(m) => m in s.topicPending
    case NotifyGlobal(m) => m in s.globalPending && m !in s.topicPending
    case OthersClaim(_) => true
    case OthersSubscribe(_) => true
    case Subscribe => s.phase.Starting?
    case ClaimExact(taken) =>
      && s.phase.Idle? && !IsWildcardFilter(s.filter)
      && taken <= Available(s, s.filter)
      && (taken == {} ==> Available(s, s.filter) == {})
    case BeginScan(_) => s.phase.Idle? && IsWildcardFilter(s.filter)
    case List(listing) =>
      && s.phase.Scanning? && !s.phase.listed && s.phase.offset < SHARDS
      && forall m :: (m in s.unclaimed && m.readyAt <= s.clock
                      && TopicShard(m.topic) == ShardAt(s.phase.start, s.phase.offset))
           ==> m.topic in listing
    case Try(taken) =>
      && s.phase.Scanning? && s.phase.listed && s.phase.todo != []
      && var topic := s.phase.todo[0];
         if Matches(s.filter, topic)
         then taken <= Available(s, topic) && (taken == {} ==> Available(s, topic) == {})
         else taken == {}
    case NextShard => s.phase.Scanning? && s.phase.listed && s.phase.todo == []
    case Resume => s.phase.Busy?
    case Wake => s.phase.Waiting? && Open(s.channels, s.filter) && Generation(s.channels, s.filter) != s.seen
    case Timeout => s.phase.Waiting?
  }

  ghost function Do(s: State, a: Step): State
    requires Enabled(s, a)
  {
    match a
    case Tick(to) => s.(clock := to)
    case Commit(batch) =>
      s.(unclaimed := s.unclaimed + batch, topicPending := s.topicPending + batch,
         globalPending := s.globalPending + batch)
    case NotifyTopic(m) =>
      s.(channels := TopicBumped(s.channels, m.topic), topicPending := s.topicPending - {m})
    case NotifyGlobal(m) =>
      s.(channels := GlobalBumped(s.channels), globalPending := s.globalPending - {m})
    case OthersClaim(taken) => s.(unclaimed := s.unclaimed - taken)
    case OthersSubscribe(other) => s.(channels := Subscribed(s.channels, other))
    case Subscribe =>
      var c := Subscribed(s.channels, s.filter);
      s.(channels := c, seen := Generation(c, s.filter), phase := Idle)
    case ClaimExact(taken) =>
      if taken == {} then s.(phase := Waiting) else s.(phase := Busy, unclaimed := s.unclaimed - taken)
    case BeginScan(start) => s.(phase := Scanning(start, 0, false, []))
    case List(listing) => s.(phase := s.phase.(listed := true, todo := listing))
    case Try(taken) =>
      if taken == {} then s.(phase := s.phase.(todo := s.phase.todo[1..]))
      else s.(phase := Busy, unclaimed := s.unclaimed - taken)
    case NextShard =>
      if s.phase.offset + 1 >= SHARDS then s.(phase := Waiting)
      else s.(phase := s.phase.(offset := s.phase.offset + 1, listed := false))
    case Resume => s.(phase := Idle)
    case Wake => s.(seen := Generation(s.channels, s.filter), phase := Idle)
    case Timeout => s.(phase := Idle)
  }

  // ----- the invariant ---------------------------------------------------------------------

  /** How far into the scan the shard of a topic comes. */
  function Position(start: nat, topic: string): (offset: nat)
    ensures offset < SHARDS && ShardAt(start, offset) == TopicShard(topic)
  {
    Rotated(start, TopicShard(topic));
    RotatedOffset(start % SHARDS, TopicShard(topic))
  }

  function RotatedOffset(from: nat, k: nat): nat
    requires from < SHARDS && k < SHARDS
  {
    if k >= from then k - from else k + SHARDS - from
  }

  lemma Rotated(start: nat, k: nat)
    requires k < SHARDS
    ensures ShardAt(start, RotatedOffset(start % SHARDS, k)) == k
  {
    var q, from := start / SHARDS, start % SHARDS;
    assert start == SHARDS * q + from;
    if k >= from {
      assert start + RotatedOffset(from, k) == SHARDS * q + k;
    } else {
      assert start + RotatedOffset(from, k) == SHARDS * (q + 1) + k;
    }
  }

  /** The running scan still comes to this topic. */
  predicate StillAhead(p: Phase, topic: string)
    requires p.Scanning?
  {
    var at := Position(p.start, topic);
    at > p.offset || (at == p.offset && (!p.listed || topic in p.todo))
  }

  /** The bump meant for this subscriber has yet to run. */
  predicate BumpPending(s: State, m: Message) {
    if IsWildcardFilter(s.filter) then m in s.globalPending else m in s.topicPending
  }

  predicate Unseen(s: State) { Open(s.channels, s.filter) && Generation(s.channels, s.filter) != s.seen }

  predicate Noticed(s: State, m: Message) {
    || BumpPending(s, m) || Unseen(s)
    || s.phase.Starting? || s.phase.Idle? || s.phase.Busy?
    || (s.phase.Scanning? && StillAhead(s.phase, m.topic))
  }

  ghost predicate Inv(s: State) {
    && (s.phase.Starting? || (Open(s.channels, s.filter) && s.seen <= Generation(s.channels, s.filter)))
    && (s.phase.Scanning? ==> s.phase.offset < SHARDS && IsWildcardFilter(s.filter))
    && (forall m :: m in s.unclaimed ==> m.readyAt <= s.clock)
    && (forall m :: m in s.unclaimed && Matches(s.filter, m.topic) ==> Noticed(s, m))
  }

  lemma BumpKeeps(s: State, a: Step)
    requires Inv(s) && Enabled(s, a) && (a.NotifyTopic? || a.NotifyGlobal?)
    ensures Inv(Do(s, a))
  {
    var s' := Do(s, a);
    forall m | m in s'.unclaimed && Matches(s'.filter, m.topic) ensures Noticed(s', m) {
      assert Noticed(s, m);
      if m == a.m && a.NotifyTopic? && !IsWildcardFilter(s.filter) {
        ExactFilter(s.filter, m.topic);
      }
    }
  }

  lemma TableKeeps(s: State, a: Step)
    requires Inv(s) && Enabled(s, a)
    requires a.Tick? || a.Commit? || a.OthersClaim? || a.OthersSubscribe?
    ensures Inv(Do(s, a))
  {
    var s' := Do(s, a);
    forall m | m in s'.unclaimed && Matches(s'.filter, m.topic) ensures Noticed(s', m) {
      if m in s.unclaimed { assert Noticed(s, m); }
    }
  }

  lemma ClaimKeeps(s: State, a: Step)
    requires Inv(s) && Enabled(s, a) && (a.ClaimExact? || a.Subscribe? || a.BeginScan?)
    ensures Inv(Do(s, a))
  {
    var s' := Do(s, a);
    forall m | m in s'.unclaimed && Matches(s'.filter, m.topic) ensures Noticed(s', m) {
      if a.ClaimExact? {
        ExactFilter(s.filter, m.topic);
        assert m in Available(s, s.filter);
      }
    }
  }

  lemma ScanKeeps(s: State, a: Step)
    requires Inv(s) && Enabled(s, a) && (a.List? || a.Try? || a.NextShard?)
    ensures Inv(Do(s, a))
  {
    var s' := Do(s, a);
    forall m | m in s'.unclaimed && Matches(s'.filter, m.topic) ensures Noticed(s', m) {
      assert Noticed(s, m);
      if a.Try? && m.topic == s.phase.todo[0] {
        assert m in Available(s, m.topic);
      }
    }
  }

  lemma StepKeeps(s: State, a: Step)
    requires Inv(s) && Enabled(s, a)
    ensures Inv(Do(s, a))
  {
    if a.NotifyTopic? || a.NotifyGlobal? { BumpKeeps(s, a); }
    else if a.Tick? || a.Commit? || a.OthersClaim? || a.OthersSubscribe? { TableKeeps(s, a); }
    else if a.ClaimExact? || a.Subscribe? || a.BeginScan? { ClaimKeeps(s, a); }
    else if a.List? || a.Try? || a.NextShard? { ScanKeeps(s, a); }
  }

  // ----- every run -------------------------------------------------------------------------

  ghost predicate IsRun(states: seq<State>, steps: seq<Step>) {
    && |states| == |steps| + 1
    && states[0].phase.Starting?
    && (forall m :: m in states[0].unclaimed ==> m.readyAt <= states[0].clock)
    && forall k :: 0 <= k < |steps| ==>
         Enabled(states[k], steps[k]) && states[k + 1] == Do(states[k], steps[k])
  }

  lemma {:induction false} RunKeeps(states: seq<State>, steps: seq<Step>, k: nat)
    requires IsRun(states, steps) && k < |states|
    ensures Inv(states[k])
  {
    if k > 0 {
      RunKeeps(states, steps, k - 1);
      StepKeeps(states[k - 1], steps[k - 1]);
    }
  }

  /** Asleep with nothing new to see. */
  predicate Blocked(s: State) { s.phase.Waiting? && !Unseen(s) }

  /** In every interleaving, whenever the subscriber is blocked, each committed and never claimed
      message its filter matches still has its wake-up to come. */
  lemma NoLostWakeUp(states: seq<State>, steps: seq<Step>, k: nat, m: Message)
    requires IsRun(states, steps) && k < |states|
    requires Blocked(states[k]) && m in states[k].unclaimed && Matches(states[k].filter, m.topic)
    ensures BumpPending(states[k], m)
  {
    RunKeeps(states, steps, k);
    assert Noticed(states[k], m);
  }

  /** The bump of the topic's own channel, where it is still due. */
  ghost function TopicFirst(s: State, m: Message): State {
    if m in s.topicPending then Do(s, NotifyTopic(m)) else s
  }

  /** And that wake-up is free to come, and unblocks the subscriber when it does. For a wildcard
      filter the bump of the topic's own channel may have to come first; it blocks nothing. */
  lemma PendingBumpUnblocks(s: State, m: Message)
    requires Inv(s) && s.phase.Waiting? && BumpPending(s, m) && Matches(s.filter, m.topic)
    ensures !IsWildcardFilter(s.filter) ==>
      && Enabled(s, NotifyTopic(m)) && Unseen(Do(s, NotifyTopic(m)))
      && Enabled(Do(s, NotifyTopic(m)), Wake)
    ensures IsWildcardFilter(s.filter) ==>
      && Enabled(TopicFirst(s, m), NotifyGlobal(m)) && Unseen(Do(TopicFirst(s, m), NotifyGlobal(m)))
      && Enabled(Do(TopicFirst(s, m), NotifyGlobal(m)), Wake)
  {
    if !IsWildcardFilter(s.filter) { ExactFilter(s.filter, m.topic); }
  }

  // ----- the subscriber's way --------------------------------------------------------------

  /** The steps are enabled one after the other and lead from `s` to `t`. */
  ghost predicate Goes(s: State, steps: seq<Step>, t: State)
    decreases |steps|
  {
    if steps == [] then s == t else Enabled(s, steps[0]) && Goes(Do(s, steps[0]), steps[1..], t)
  }

  lemma GoesFirst(s: State, a: Step, steps: seq<Step>, t: State)
    requires Enabled(s, a) && Goes(Do(s, a), steps, t)
    ensures Goes(s, [a] + steps, t)
  {
    assert ([a] + steps)[1..] == steps;
  }

  /** A new subscriber has seen what there is to see, and looks for messages first. */
  lemma SubscribesThenLooks(s: State)
    requires s.phase.Starting?
    ensures Enabled(s, Subscribe)
    ensures var s' := Do(s, Subscribe); s'.phase == Idle && !Unseen(s') && s'.unclaimed == s.unclaimed
  {
  }

  /** Nothing the filter matches is there to claim. */
  ghost predicate NothingFor(s: State) {
    forall m :: m in s.unclaimed && m.readyAt <= s.clock ==> !Matches(s.filter, m.topic)
  }

  lemma NoneAvailable(s: State, topic: string)
    requires NothingFor(s) && Matches(s.filter, topic)
    ensures Available(s, topic) == {}
  {
  }

  /** The listed topics, none of which yields anything, are tried one by one. */
  lemma {:induction false} TriesAll(s: State) returns (steps: seq<Step>)
    requires s.phase.Scanning? && s.phase.listed && NothingFor(s)
    ensures Goes(s, steps, s.(phase := s.phase.(todo := [])))
    decreases |s.phase.todo|
  {
    if s.phase.todo == [] {
      steps := [];
    } else {
      if Matches(s.filter, s.phase.todo[0]) { NoneAvailable(s, s.phase.todo[0]); }
      var next := Do(s, Try({}));
      var later := TriesAll(next);
      GoesFirst(s, Try({}), later, next.(phase := next.phase.(todo := [])));
      steps := [Try({})] + later;
    }
  }

  lemma {:induction false} GoesOn(s: State, a: seq<Step>, t: State, b: seq<Step>, u: State)
    requires Goes(s, a, t) && Goes(t, b, u)
    ensures Goes(s, a + b, u)
    decreases |a|
  {
    if a == [] {
      assert a + b == b;
    } else {
      GoesOn(Do(s, a[0]), a[1..], t, b, u);
      assert (a + b)[1..] == a[1..] + b;
    }
  }

  /** The listing of each shard names the topics of its ready messages. */
  ghost predicate Listed(s: State, listing: nat -> seq<string>) {
    forall m :: m in s.unclaimed && m.readyAt <= s.clock ==> m.topic in listing(TopicShard(m.topic))
  }

  lemma {:induction false} ScanEnds(s: State, listing: nat -> seq<string>) returns (steps: seq<Step>)
    requires s.phase.Scanning? && !s.phase.listed && s.phase.offset < SHARDS && s.phase.todo == []
    requires NothingFor(s) && Listed(s, listing)
    ensures Goes(s, steps, s.(phase := Waiting))
    decreases SHARDS - s.phase.offset
  {
    var list := List(listing(ShardAt(s.phase.start, s.phase.offset)));
    var s1 := Do(s, list);
    var tries := TriesAll(s1);
    var s2 := s1.(phase := s1.phase.(todo := []));
    var s3 := Do(s2, NextShard);
    var later: seq<Step> := [];
    hide NothingFor, Listed;
    if s.phase.offset + 1 < SHARDS {
      later := ScanEnds(s3, listing);
    }
    assert Goes(s3, later, s.(phase := Waiting));
    GoesFirst(s2, NextShard, later, s.(phase := Waiting));
    GoesOn(s1, tries, s2, [NextShard] + later, s.(phase := Waiting));
    GoesFirst(s, list, tries + ([NextShard] + later), s.(phase := Waiting));
    steps := [list] + (tries + ([NextShard] + later));
  }

  /** A subscriber that finds nothing goes to sleep, after one look at its topic or one round of all
      shards, and changes nothing else. */
  lemma NothingFoundSleeps(s: State, start: nat, listing: nat -> seq<string>) returns (steps: seq<Step>)
    requires s.phase.Idle? && s.filter != "" && NothingFor(s) && Listed(s, listing)
    ensures steps != [] && Goes(s, steps, s.(phase := Waiting))
  {
    if IsWildcardFilter(s.filter) {
      var later := ScanEnds(Do(s, BeginScan(start)), listing);
      GoesFirst(s, BeginScan(start), later, s.(phase := Waiting));
      steps := [BeginScan(start)] + later;
    } else {
      ExactFilter(s.filter, s.filter);
      NoneAvailable(s, s.filter);
      GoesFirst(s, ClaimExact({}), [], s.(phase := Waiting));
      steps := [ClaimExact({})];
    }
  }

  /** A subscriber woken finds what is there: it has then seen the generation, and what it claims is
      claimed. */
  lemma WokenClaims(s: State, taken: set<Message>)
    requires s.phase.Waiting? && Unseen(s) && !IsWildcardFilter(s.filter)
    requires taken != {} && taken <= Available(s, s.filter)
    ensures Goes(s, [Wake, ClaimExact(taken), Resume],
                 s.(seen := Generation(s.channels, s.filter), unclaimed := s.unclaimed - taken, phase := Idle))
  {
    var s1 := Do(s, Wake);
    var s2 := Do(s1, ClaimExact(taken));
    var s3 := Do(s2, Resume);
    GoesFirst(s2, Resume, [], s3);
    GoesFirst(s1, ClaimExact(taken), [Resume], s3);
    GoesFirst(s, Wake, [ClaimExact(taken), Resume], s3);
    assert [ClaimExact(taken)] + [Resume] == [ClaimExact(taken), Resume];
    assert [Wake] + [ClaimExact(taken), Resume] == [Wake, ClaimExact(taken), Resume];
  }

  /** The same at a topic of a scan. */
  lemma TriedIsClaimed(s: State, taken: set<Message>)
    requires s.phase.Scanning? && s.phase.listed && s.phase.todo != [] && Matches(s.filter, s.phase.todo[0])
    requires taken != {} && taken <= Available(s, s.phase.todo[0])
    ensures Goes(s, [Try(taken), Resume], s.(unclaimed := s.unclaimed - taken, phase := Idle))
  {
    var s1 := Do(s, Try(taken));
    GoesFirst(s1, Resume, [], Do(s1, Resume));
    GoesFirst(s, Try(taken), [Resume], Do(s1, Resume));
    assert [Try(taken)] + [Resume] == [Try(taken), Resume];
  }
}
