/** Leader election end to end: the broker's table (src/election.rs), calls in flight, and the
    self-renewing handles of the Python and Java clients
    (python/cangling_broker/client.py, java/.../ElectionHandle.java).

    Real time is counted in nanoseconds. The broker reads it in whole milliseconds; a handle
    reads a monotonic clock that differs from it by a constant. Every candidate id belongs to
    one handle, and nobody resigns the election under study. */
module ElectionProtocol {
  import opened Wrappers
  import opened ElectionStore

  const MS: int := 1_000_000

  /** The margin a handle subtracts from a lease, in milliseconds. */
  function Safety(ttl: int): int {
    if ttl * 1000 / 3 < 1000 then ttl * 1000 / 3 else 1000
  }

  /** A third of the lifetime, in whole milliseconds, but at most a second: one second for every
      lifetime a handle accepts. */
  lemma SafetyIsOneSecond(ttl: int)
    ensures ttl >= 3 ==> Safety(ttl) == 1000
    ensures ttl < 3 ==> 3 * Safety(ttl) <= 1000 * ttl < 3 * Safety(ttl) + 3
  {
  }

  // ----- one handle ------------------------------------------------------------------------

  datatype Handle = Handle(ttl: int, offset: int, leading: bool, validUntil: int,
                           leader: Option<Lease>, call: Option<nat>)

  predicate IsLeader(h: Handle, now: int) {
    h.leading && now + h.offset < h.validUntil
  }

  function BecomeFollower(h: Handle, leader: Option<Lease>): Handle {
    h.(leader := leader, leading := false, validUntil := 0)
  }

  function BecomeLeader(h: Handle, leader: Lease, remaining: nat, now: int): Handle {
    var validFor := remaining - Safety(h.ttl);
    if validFor <= 0 then BecomeFollower(h, Some(leader))
    else h.(leader := Some(leader), leading := true, validUntil := now + h.offset + validFor * MS)
  }

  /** The fields the worker thread updates. */
  class ElectionHandle {
    const ttl: int
    var leading: bool
    var validUntil: int
    var leader: Option<Lease>

    constructor (ttl: int)
      ensures this.ttl == ttl && !leading && validUntil == 0 && leader.None?
    {
      this.ttl := ttl;
      leading, validUntil, leader := false, 0, None;
    }

    /** This handle as a value, for a clock `offset` ahead of real time. */
    ghost function Value(offset: int, call: Option<nat>): Handle
      reads this
    {
      Handle(ttl, offset, leading, validUntil, leader, call)
    }

    method ReportsLeader(clock: int) returns (r: bool)
      ensures r <==> leading && clock < validUntil
      ensures forall offset, call :: r <==> IsLeader(Value(offset, call), clock - offset)
    {
      r := leading && clock < validUntil;
    }

    method Follow(observed: Option<Lease>)
      modifies this
      ensures forall offset, call ::
        Value(offset, call) == BecomeFollower(old(Value(offset, call)), observed)
      ensures !leading && leader == observed
    {
      leader := observed;
      leading := false;
      validUntil := 0;
    }

    method Lead(won: Lease, remaining: nat, clock: int)
      modifies this
      ensures forall offset, call ::
        Value(offset, call) == BecomeLeader(old(Value(offset, call)), won, remaining, clock - offset)
      ensures leader == Some(won) && (leading <==> Safety(ttl) < remaining)
      ensures leading ==> validUntil == clock + (remaining - Safety(ttl)) * 1_000_000
    {
      var validFor := remaining - Safety(ttl);
      if validFor <= 0 {
        Follow(Some(won));
        return;
      }
      leader := Some(won);
      validUntil := clock + validFor * MS;
      leading := true;
    }
  }

  // ----- the whole system ------------------------------------------------------------------

  /** A remote call, by how far the broker has got with it. */
  datatype Call =
    | CampaignSent(candidate: string)
    | CampaignRefused(candidate: string)
    | CampaignRow(candidate: string, row: Lease)
    | RenewSent(candidate: string, term: nat, lease: string)
    | RenewRow(candidate: string, renewed: Option<Lease>)
    | Answered(candidate: string, leads: bool, leader: Option<Lease>, remaining: nat, measured: int)

  datatype System = System(name: string, world: World, calls: seq<Call>,
                           handles: map<string, Handle>, now: int)

  datatype Action =
    | Tick(to: int)
    | Ask(who: string)
    | Upsert(i: nat, lease: string, at: int)
    | ReadRow(i: nat)
    | Extend(i: nat, at: int)
    | Answer(i: nat, checked: int, measured: int)
    | Receive(who: string)
    | Fail(who: string)
    | Stop(who: string)
    | Other(c: Command)

  /** A broker clock reading that is neither in the future nor before the last one used. */
  predicate Reading(s: System, at: int) {
    s.world.clock <= at <= I64_MAX && at * MS <= s.now
  }

  function CommandOf(s: System, call: Call, lease: string, at: int): Command
    requires call.candidate in s.handles
  {
    var ttl := s.handles[call.candidate].ttl;
    if call.RenewSent? then Renew(s.name, call.candidate, call.term, call.lease, ttl, at)
    else Campaign(s.name, call.candidate, ttl, lease, at)
  }

  /** Commands of other clients: any other election, or this one under other ids. */
  predicate Foreign(s: System, c: Command) {
    c.name != s.name
    || (c.Campaign? && c.candidate !in s.handles)
    || (c.Renew? && c.leader !in s.handles)
  }

  /** When an action can happen. `delay` bounds the time from the broker measuring the
      remaining lifetime to the handle acting on it. */
  predicate Enabled(s: System, a: Action, delay: int) {
    match a
    case Tick(to) => to >= s.now
    case Ask(who) => who in s.handles && s.handles[who].call.None?
    case Upsert(i, _, at) =>
      i < |s.calls| && s.calls[i].CampaignSent? && s.calls[i].candidate in s.handles && Reading(s, at)
    case ReadRow(i) => i < |s.calls| && s.calls[i].CampaignRefused? && s.name in s.world.rows
    case Extend(i, at) =>
      i < |s.calls| && s.calls[i].RenewSent? && s.calls[i].candidate in s.handles && Reading(s, at)
    case Answer(i, _, measured) =>
      i < |s.calls| && (s.calls[i].CampaignRow? || s.calls[i].RenewRow?) && measured * MS <= s.now
    case Receive(who) =>
      && who in s.handles && s.handles[who].call.Some?
      && var i := s.handles[who].call.value;
         i < |s.calls| && s.calls[i].Answered? && s.now <= s.calls[i].measured * MS + delay
    case Fail(who) => who in s.handles
    case Stop(who) => who in s.handles
    case Other(c) => Reading(s, c.now) && (c.Resign? || ValidTtl(c.ttl)) && Foreign(s, c)
  }

  /** What the handle's loop asks for next. */
  function Request(s: System, who: string): Call
    requires who in s.handles
  {
    var h := s.handles[who];
    if IsLeader(h, s.now) && h.leader.Some?
    then RenewSent(who, h.leader.value.term, h.leader.value.lease)
    else CampaignSent(who)
  }

  function AnswerOf(call: Call, checked: int, measured: int): Call
    requires call.CampaignRow? || call.RenewRow?
  {
    match call
    case CampaignRow(c, row) =>
      Answered(c, Active(row, checked) && row.leader == c, Some(row),
               RemainingTtl(row, measured), measured)
    case RenewRow(c, r) =>
      Answered(c, r.Some?, r, if r.Some? then RemainingTtl(r.value, measured) else 0, measured)
  }

  function Received(h: Handle, call: Call, now: int): Handle
    requires call.Answered?
  {
    var h' := if call.leads && call.leader.Some?
              then BecomeLeader(h, call.leader.value, call.remaining, now)
              else BecomeFollower(h, call.leader);
    h'.(call := None)
  }

  function Failed(h: Handle, now: int): Handle {
    (if IsLeader(h, now) then h else BecomeFollower(h, h.leader)).(call := None)
  }

  ghost function Do(s: System, a: Action, delay: int): System
    requires Sound(s.world) && Enabled(s, a, delay)
  {
    match a
    case Tick(to) => s.(now := to)
    case Ask(who) =>
      s.(calls := s.calls + [Request(s, who)],
         handles := s.handles[who := s.handles[who].(call := Some(|s.calls|))])
    case Upsert(i, lease, at) =>
      var c := CommandOf(s, s.calls[i], lease, at);
      var w := Step(s.world, c);
      s.(world := w,
         calls := s.calls[i := if Open(s.world.rows, s.name, at)
                               then CampaignRow(s.calls[i].candidate, w.rows[s.name])
                               else CampaignRefused(s.calls[i].candidate)])
    case ReadRow(i) =>
      s.(calls := s.calls[i := CampaignRow(s.calls[i].candidate, s.world.rows[s.name])])
    case Extend(i, at) =>
      var c := CommandOf(s, s.calls[i], "", at);
      var w := Step(s.world, c);
      s.(world := w,
         calls := s.calls[i := RenewRow(s.calls[i].candidate,
                                        if Takes(s.world.rows, c) then Some(w.rows[s.name]) else None)])
    case Answer(i, checked, measured) =>
      s.(calls := s.calls[i := AnswerOf(s.calls[i], checked, measured)])
    case Receive(who) =>
      var h := s.handles[who];
      s.(handles := s.handles[who := Received(h, s.calls[h.call.value], s.now)])
    case Fail(who) => s.(handles := s.handles[who := Failed(s.handles[who], s.now)])
    case Stop(who) =>
      s.(handles := s.handles[who := BecomeFollower(s.handles[who], s.handles[who].leader)])
    case Other(c) => s.(world := Step(s.world, c))
  }

  // ----- the invariant ---------------------------------------------------------------------

  /** A row a handle's side has seen was granted in that term, and promised no more than the
      term lasts. Rows of other holders are of no concern. */
  ghost predicate Backed(s: System, row: Lease) {
    row.leader in s.handles ==>
      && s.name in s.world.terms && 1 <= row.term <= |s.world.terms[s.name]|
      && var t := s.world.terms[s.name][row.term - 1];
         t.leader == row.leader && row.expireAt <= t.end
  }

  ghost predicate CallOk(s: System, call: Call) {
    && call.candidate in s.handles
    && match call
       case CampaignRow(_, row) => Backed(s, row)
       case RenewRow(c, Some(row)) => row.leader == c && Backed(s, row)
       case Answered(c, leads, leader, remaining, measured) =>
         leads ==> leader.Some? && leader.value.leader == c && Backed(s, leader.value)
                   && remaining == RemainingTtl(leader.value, measured)
       case _ => true
  }

  ghost predicate HandleOk(s: System, who: string)
    requires who in s.handles
  {
    var h := s.handles[who];
    && 3 <= h.ttl <= 3600
    && (h.call.Some? ==> h.call.value < |s.calls| && s.calls[h.call.value].candidate == who)
    && (h.leading ==>
          && h.leader.Some? && h.leader.value.leader == who && Backed(s, h.leader.value)
          && h.validUntil - h.offset <= h.leader.value.expireAt * MS)
  }

  /** The running lease of a handle is no longer than its lifetime from the last reading. */
  predicate ExpiryBounded(s: System) {
    s.name in s.world.rows && s.world.rows[s.name].leader in s.handles ==>
      s.world.rows[s.name].expireAt
        <= Expiry(s.world.clock, s.handles[s.world.rows[s.name].leader].ttl)
  }

  ghost predicate Inv(s: System) {
    && Sound(s.world) && s.world.clock * MS <= s.now && ExpiryBounded(s)
    && (forall i :: 0 <= i < |s.calls| ==> CallOk(s, s.calls[i]))
    && (forall who :: who in s.handles ==> HandleOk(s, who))
  }

  // ----- table steps -----------------------------------------------------------------------

  /** A command from a handle, for its own lease, or a foreign one. */
  ghost predicate Allowed(s: System, c: Command) {
    && Possible(s.world, c) && c.now * MS <= s.now
    && (Foreign(s, c)
        || (c.Campaign? && c.candidate in s.handles && c.ttl == s.handles[c.candidate].ttl)
        || (c.Renew? && c.leader in s.handles && c.ttl == s.handles[c.leader].ttl))
  }

  lemma BoundedStays(s: System, c: Command)
    requires Inv(s) && Allowed(s, c)
    ensures ExpiryBounded(s.(world := Step(s.world, c)))
  {
  }

  /** No allowed command shortens a term of a handle. */
  lemma BackedStays(s: System, c: Command, row: Lease)
    requires Inv(s) && Allowed(s, c) && Backed(s, row)
    ensures Backed(s.(world := Step(s.world, c)), row)
  {
    if row.leader in s.handles {
      assert s.name in s.world.rows;
      assert SoundName(s.world, s.name);
    }
  }

  /** Another table that backs the same rows serves as well. */
  lemma WorldSwap(s: System, w: World)
    requires Inv(s) && Sound(w) && w.clock * MS <= s.now && ExpiryBounded(s.(world := w))
    requires forall row :: Backed(s, row) ==> Backed(s.(world := w), row)
    ensures Inv(s.(world := w))
  {
    var s' := s.(world := w);
    forall i | 0 <= i < |s'.calls| ensures CallOk(s', s'.calls[i]) { assert CallOk(s, s.calls[i]); }
    forall who | who in s'.handles ensures HandleOk(s', who) { assert HandleOk(s, who); }
  }

  lemma TableStep(s: System, c: Command)
    requires Inv(s) && Allowed(s, c)
    ensures Inv(s.(world := Step(s.world, c)))
  {
    StepSound(s.world, c);
    BoundedStays(s, c);
    var w := Step(s.world, c);
    assert w.clock == c.now;
    forall row | Backed(s, row) ensures Backed(s.(world := w), row) { BackedStays(s, c, row); }
    WorldSwap(s, w);
  }

  /** The current row is backed by the current term. */
  lemma RowBacked(s: System)
    requires Inv(s) && s.name in s.world.rows
    ensures Backed(s, s.world.rows[s.name])
  {
    assert SoundName(s.world, s.name);
  }

  /** Rewriting one call of the same candidate keeps everything else. */
  lemma CallStep(s: System, i: nat, call: Call)
    requires Inv(s) && i < |s.calls| && call.candidate == s.calls[i].candidate && CallOk(s, call)
    ensures Inv(s.(calls := s.calls[i := call]))
  {
    var s' := s.(calls := s.calls[i := call]);
    forall j | 0 <= j < |s'.calls| ensures CallOk(s', s'.calls[j]) {
      assert CallOk(s, s'.calls[j]);
    }
    assert forall who :: who in s.handles ==> HandleOk(s, who) && HandleOk(s', who);
  }

  /** Replacing one handle by one with the same lifetime keeps everything else. */
  lemma HandleStep(s: System, who: string, h: Handle)
    requires Inv(s) && who in s.handles && h.ttl == s.handles[who].ttl
    requires HandleOk(s.(handles := s.handles[who := h]), who)
    ensures Inv(s.(handles := s.handles[who := h]))
  {
    var s' := s.(handles := s.handles[who := h]);
    assert forall row :: Backed(s, row) <==> Backed(s', row);
    forall x | x in s'.handles ensures HandleOk(s', x) {
      assert HandleOk(s, x);
    }
    assert forall i :: 0 <= i < |s.calls| ==> CallOk(s, s.calls[i]) && CallOk(s', s'.calls[i]);
  }

  // ----- every action keeps it -------------------------------------------------------------

  lemma UpsertKeeps(s: System, i: nat, lease: string, at: int, delay: int)
    requires Inv(s) && Enabled(s, Upsert(i, lease, at), delay)
    ensures Inv(Do(s, Upsert(i, lease, at), delay))
  {
    var who := s.calls[i].candidate;
    assert HandleOk(s, who);
    var c := CommandOf(s, s.calls[i], lease, at);
    TableStep(s, c);
    var mid := s.(world := Step(s.world, c));
    if Open(s.world.rows, s.name, at) {
      RowBacked(mid);
      CallStep(mid, i, CampaignRow(who, mid.world.rows[s.name]));
    } else {
      CallStep(mid, i, CampaignRefused(who));
    }
  }

  lemma ExtendKeeps(s: System, i: nat, at: int, delay: int)
    requires Inv(s) && Enabled(s, Extend(i, at), delay)
    ensures Inv(Do(s, Extend(i, at), delay))
  {
    var who := s.calls[i].candidate;
    assert HandleOk(s, who);
    var c := CommandOf(s, s.calls[i], "", at);
    TableStep(s, c);
    var mid := s.(world := Step(s.world, c));
    if Takes(s.world.rows, c) {
      RowBacked(mid);
      CallStep(mid, i, RenewRow(who, Some(mid.world.rows[s.name])));
    } else {
      CallStep(mid, i, RenewRow(who, None));
    }
  }

  lemma AnswerKeeps(s: System, i: nat, checked: int, measured: int, delay: int)
    requires Inv(s) && Enabled(s, Answer(i, checked, measured), delay)
    ensures Inv(Do(s, Answer(i, checked, measured), delay))
  {
    assert CallOk(s, s.calls[i]);
    CallStep(s, i, AnswerOf(s.calls[i], checked, measured));
  }

  lemma ReadRowKeeps(s: System, i: nat, delay: int)
    requires Inv(s) && Enabled(s, ReadRow(i), delay)
    ensures Inv(Do(s, ReadRow(i), delay))
  {
    assert CallOk(s, s.calls[i]);
    RowBacked(s);
    CallStep(s, i, CampaignRow(s.calls[i].candidate, s.world.rows[s.name]));
  }

  /** Within the margin, the local deadline never passes the end of the lease. */
  lemma DeadlineWithinLease(h: Handle, row: Lease, measured: int, now: int)
    requires 3 <= h.ttl && now <= (measured + Safety(h.ttl)) * MS
    ensures var h' := BecomeLeader(h, row, RemainingTtl(row, measured), now);
      h'.leading ==> h'.validUntil - h'.offset <= row.expireAt * MS
  {
  }

  lemma ReceiveKeeps(s: System, who: string, delay: int)
    requires Inv(s) && Enabled(s, Receive(who), delay) && delay <= 1000 * MS
    ensures Inv(Do(s, Receive(who), delay))
  {
    var h := s.handles[who];
    assert HandleOk(s, who);
    var call := s.calls[h.call.value];
    assert CallOk(s, call);
    var h' := Received(h, call, s.now);
    if call.leads {
      SafetyIsOneSecond(h.ttl);
      DeadlineWithinLease(h, call.leader.value, call.measured, s.now);
    }
    var s' := s.(handles := s.handles[who := h']);
    assert forall row :: Backed(s, row) ==> Backed(s', row);
    HandleStep(s, who, h');
  }

  lemma AskKeeps(s: System, who: string, delay: int)
    requires Inv(s) && Enabled(s, Ask(who), delay)
    ensures Inv(Do(s, Ask(who), delay))
  {
    var call := Request(s, who);
    var s1 := s.(calls := s.calls + [call]);
    forall x | x in s1.handles ensures HandleOk(s1, x) { assert HandleOk(s, x); }
    forall j | 0 <= j < |s1.calls| ensures CallOk(s1, s1.calls[j]) {
      if j < |s.calls| { assert CallOk(s, s.calls[j]); }
    }
    assert Inv(s1);
    var h' := s.handles[who].(call := Some(|s.calls|));
    assert HandleOk(s, who);
    HandleStep(s1, who, h');
  }

  lemma LocalKeeps(s: System, a: Action, delay: int)
    requires Inv(s) && Enabled(s, a, delay) && (a.Fail? || a.Stop?)
    ensures Inv(Do(s, a, delay))
  {
    assert HandleOk(s, a.who);
    var h := s.handles[a.who];
    var h' := if a.Fail? then Failed(h, s.now) else BecomeFollower(h, h.leader);
    var s' := s.(handles := s.handles[a.who := h']);
    assert forall row :: Backed(s, row) ==> Backed(s', row);
    HandleStep(s, a.who, h');
  }

  lemma TickKeeps(s: System, to: int, delay: int)
    requires Inv(s) && Enabled(s, Tick(to), delay)
    ensures Inv(Do(s, Tick(to), delay))
  {
    var s' := s.(now := to);
    assert forall who :: who in s.handles ==> HandleOk(s, who) && HandleOk(s', who);
    assert forall i :: 0 <= i < |s.calls| ==> CallOk(s, s.calls[i]) && CallOk(s', s'.calls[i]);
  }

  lemma DoKeeps(s: System, a: Action, delay: int)
    requires Inv(s) && Enabled(s, a, delay) && delay <= 1000 * MS
    ensures Inv(Do(s, a, delay))
  {
    hide Inv;
    match a {
      case Tick(to) => TickKeeps(s, to, delay);
      case Ask(who) => AskKeeps(s, who, delay);
      case Upsert(i, lease, at) => UpsertKeeps(s, i, lease, at, delay);
      case ReadRow(i) => ReadRowKeeps(s, i, delay);
      case Extend(i, at) => ExtendKeeps(s, i, at, delay);
      case Answer(i, checked, measured) => AnswerKeeps(s, i, checked, measured, delay);
      case Receive(who) => ReceiveKeeps(s, who, delay);
      case Fail(who) => LocalKeeps(s, a, delay);
      case Stop(who) => LocalKeeps(s, a, delay);
      case Other(c) => TableStep(s, c);
    }
  }

  // ----- at most one leader ----------------------------------------------------------------

  predicate Exclusive(s: System) {
    forall a, b :: a in s.handles && b in s.handles && a != b ==>
      !(IsLeader(s.handles[a], s.now) && IsLeader(s.handles[b], s.now))
  }

  lemma TwoTermsCannotBothRun(s: System, a: string, b: string)
    requires Inv(s) && a in s.handles && b in s.handles && a != b
    ensures !(IsLeader(s.handles[a], s.now) && IsLeader(s.handles[b], s.now))
  {
    assert HandleOk(s, a) && HandleOk(s, b);
    if s.name in s.world.rows {
      assert SoundName(s.world, s.name);
    }
  }

  /** Nothing has happened yet: no rows, no calls, no leaders. */
  predicate Initial(s: System) {
    && s.world.rows == map[] && s.world.terms == map[] && s.calls == []
    && s.world.clock * MS <= s.now
    && forall who :: who in s.handles ==>
         3 <= s.handles[who].ttl <= 3600 && !s.handles[who].leading && s.handles[who].call.None?
  }

  /** The states of a run: each follows from the one before by an enabled action. */
  ghost predicate IsRun(states: seq<System>, actions: seq<Action>, delay: int) {
    && |states| == |actions| + 1 && Initial(states[0])
    && forall k :: 0 <= k < |actions| ==>
         && Sound(states[k].world) && Enabled(states[k], actions[k], delay)
         && states[k + 1] == Do(states[k], actions[k], delay)
  }

  lemma {:induction false} RunKeepsInv(states: seq<System>, actions: seq<Action>, delay: int, k: nat)
    requires IsRun(states, actions, delay) && delay <= 1000 * MS && k < |states|
    ensures Inv(states[k])
  {
    if k > 0 {
      RunKeepsInv(states, actions, delay, k - 1);
      DoKeeps(states[k - 1], actions[k - 1], delay);
    }
  }

  /** If every answer is acted on within one second of the broker measuring the remaining
      lifetime, two handles with different ids never both report leadership. */
  lemma AtMostOneLeader(states: seq<System>, actions: seq<Action>, delay: int, k: nat)
    requires IsRun(states, actions, delay) && delay <= 1000 * MS && k < |states|
    ensures Exclusive(states[k])
  {
    RunKeepsInv(states, actions, delay, k);
    var s := states[k];
    forall a, b | a in s.handles && b in s.handles && a != b
      ensures !(IsLeader(s.handles[a], s.now) && IsLeader(s.handles[b], s.now))
    {
      TwoTermsCannotBothRun(s, a, b);
    }
  }

  // ----- what a round trip comes to --------------------------------------------------------

  /** A call that fails neither ends a leadership nor prolongs it. */
  lemma FailureChangesNothing(s: System, who: string, delay: int, later: int)
    requires Sound(s.world) && who in s.handles && s.now <= later
    ensures IsLeader(Do(s, Fail(who), delay).handles[who], later) <==> IsLeader(s.handles[who], later)
    ensures Do(s, Fail(who), delay).handles[who].call.None?
  {
  }

  /** A handle that was stopped reports no leadership any more. */
  lemma StoppedIsNoLeader(s: System, who: string, delay: int, later: int)
    requires Sound(s.world) && who in s.handles
    ensures !IsLeader(Do(s, Stop(who), delay).handles[who], later)
    ensures Do(s, Stop(who), delay).handles - {who} == s.handles - {who}
  {
  }

  /** Time passes, and others' commands take effect, in between. */
  lemma OthersGoOn(s: System, c: Command, to: int, delay: int)
    requires Sound(s.world) && s.now <= to && c.name != s.name
    requires s.world.clock <= c.now <= I64_MAX && c.now * MS <= s.now && (c.Resign? || 1 <= c.ttl <= 3600)
    ensures Do(s, Tick(to), delay) == s.(now := to)
    ensures Enabled(s, Other(c), delay)
    ensures Do(s, Other(c), delay).world == Step(s.world, c) && Do(s, Other(c), delay).handles == s.handles
  {
  }

  /** The action is enabled and leads from one state to the other. */
  ghost predicate Then(s: System, a: Action, s': System, delay: int) {
    Sound(s.world) && Enabled(s, a, delay) && s' == Do(s, a, delay)
  }

  /** The state with the handle's call put and answered, and the table changed. */
  function Told(s: System, who: string, w: World, call: Call): System
    requires who in s.handles
  {
    s.(world := w, calls := s.calls + [call], handles := s.handles[who := s.handles[who].(call := Some(|s.calls|))])
  }

  /** What asking, one statement and its answer come to. */
  lemma Asked(s: System, who: string, act: Action, call: Call, row: Call, answer: Call, w: World, checked: int,
              measured: int, delay: int) returns (s1: System, s2: System, s3: System)
    requires Sound(s.world) && Sound(w) && who in s.handles && s.handles[who].call.None? && call == Request(s, who)
    requires (act.Upsert? || act.Extend?) && act.i == |s.calls|
    requires Enabled(Told(s, who, s.world, call), act, delay)
    requires Do(Told(s, who, s.world, call), act, delay) == Told(s, who, w, row)
    requires (row.CampaignRow? || row.RenewRow?) && AnswerOf(row, checked, measured) == answer && measured * MS <= s.now
    ensures Then(s, Ask(who), s1, delay) && Then(s1, act, s2, delay)
    ensures Then(s2, Answer(|s.calls|, checked, measured), s3, delay) && s3 == Told(s, who, w, answer)
  {
    hide Sound, Recorded, Apply, Safety, Request, CommandOf, AnswerOf, Takes;
    s1 := Do(s, Ask(who), delay);
    assert s1 == Told(s, who, s.world, call);
    s2 := Do(s1, act, delay);
    s3 := Do(s2, Answer(|s.calls|, checked, measured), delay);
    assert s3.calls == s.calls + [answer];
  }

  /** The handle that leads under this row since an answer measured then. */
  function Leading(h: Handle, row: Lease, measured: int, now: int): Handle {
    Handle(h.ttl, h.offset, true, now + h.offset + (row.expireAt - measured - 1000) * 1_000_000, Some(row), None)
  }

  lemma LeadsThen(s: System, who: string, w: World, row: Lease, measured: int, delay: int) returns (s': System)
    requires Sound(w) && who in s.handles && 3 <= s.handles[who].ttl && measured + 1000 < row.expireAt
    requires s.now <= measured * MS + delay
    ensures var s3 := Told(s, who, w, Answered(who, true, Some(row), row.expireAt - measured, measured));
      Then(s3, Receive(who), s', delay)
    ensures s'.world == w && s'.handles == s.handles[who := Leading(s.handles[who], row, measured, s.now)]
  {
    var s3 := Told(s, who, w, Answered(who, true, Some(row), row.expireAt - measured, measured));
    SafetyIsOneSecond(s.handles[who].ttl);
    hide Sound, Recorded, Apply, Safety;
    s' := Do(s3, Receive(who), delay);
    assert s'.handles[who] == Leading(s.handles[who], row, measured, s.now);
  }

  /** The broker reads its clock at `at` and measures the remaining lifetime at `measured`, and the
      answer arrives in time and with more than the margin left. */
  predicate InTime(s: System, who: string, at: int, measured: int, delay: int)
    requires who in s.handles
  {
    && 3 <= s.handles[who].ttl <= 3600 && Reading(s, at) && at + 1000 * s.handles[who].ttl <= I64_MAX
    && measured * MS <= s.now <= measured * MS + delay && measured + 1000 < at + 1000 * s.handles[who].ttl
  }

  lemma RenewedRow(rows: Rows, c: Command, row: Lease)
    requires c.Renew? && c.name in rows && IsLease(rows[c.name], c.leader, c.term, c.lease)
    requires c.now < rows[c.name].expireAt && row == rows[c.name].(expireAt := c.now + 1000 * c.ttl)
    requires row.expireAt <= I64_MAX
    ensures Apply(rows, c) == rows[c.name := row] && Takes(rows, c)
  {
  }

  lemma ExtendCall(s: System, who: string, c: Command, row: Lease, delay: int)
    requires Sound(s.world) && who in s.handles && Reading(s, c.now) && c.Renew?
    requires c == Renew(s.name, who, c.term, c.lease, s.handles[who].ttl, c.now) && Takes(s.world.rows, c)
    requires Apply(s.world.rows, c) == s.world.rows[s.name := row]
    ensures var told := Told(s, who, s.world, RenewSent(who, c.term, c.lease));
      && Enabled(told, Extend(|s.calls|, c.now), delay)
      && Do(told, Extend(|s.calls|, c.now), delay) == Told(s, who, Step(s.world, c), RenewRow(who, Some(row)))
  {
    hide Sound, Recorded, Apply, Takes;
    var told := Told(s, who, s.world, RenewSent(who, c.term, c.lease));
    assert Do(told, Extend(|s.calls|, c.now), delay).calls == s.calls + [RenewRow(who, Some(row))];
  }

  lemma ExtendStep(s: System, who: string, row: Lease, at: int, delay: int) returns (w: World)
    requires Sound(s.world) && who in s.handles && Reading(s, at) && ValidTtl(s.handles[who].ttl)
    requires s.name in s.world.rows && IsLease(s.world.rows[s.name], who, row.term, row.lease)
    requires at < s.world.rows[s.name].expireAt && row == s.world.rows[s.name].(expireAt := at + 1000 * s.handles[who].ttl)
    requires row.expireAt <= I64_MAX
    ensures Sound(w) && w.rows == s.world.rows[s.name := row]
    ensures var told := Told(s, who, s.world, RenewSent(who, row.term, row.lease));
      && Enabled(told, Extend(|s.calls|, at), delay)
      && Do(told, Extend(|s.calls|, at), delay) == Told(s, who, w, RenewRow(who, Some(row)))
  {
    var c := Renew(s.name, who, row.term, row.lease, s.handles[who].ttl, at);
    hide Sound, Recorded, Apply, Takes, Open, Do, Enabled, Told;
    RenewedRow(s.world.rows, c, row);
    StepSound(s.world, c);
    ExtendCall(s, who, c, row, delay);
    w := Step(s.world, c);
  }

  lemma UpsertStep(s: System, who: string, row: Lease, at: int, delay: int) returns (w: World)
    requires Sound(s.world) && who in s.handles && Reading(s, at) && ValidTtl(s.handles[who].ttl)
    requires s.name in s.world.rows ==> s.world.rows[s.name].expireAt <= at
    requires row.leader == who && row.term == if s.name in s.world.rows then s.world.rows[s.name].term + 1 else 1
    requires row.expireAt == at + 1000 * s.handles[who].ttl <= I64_MAX
    ensures Sound(w) && w.rows == s.world.rows[s.name := row]
    ensures var told := Told(s, who, s.world, CampaignSent(who));
      && Enabled(told, Upsert(|s.calls|, row.lease, at), delay)
      && Do(told, Upsert(|s.calls|, row.lease, at), delay) == Told(s, who, w, CampaignRow(who, row))
  {
    var c := Campaign(s.name, who, s.handles[who].ttl, row.lease, at);
    assert Apply(s.world.rows, c) == s.world.rows[s.name := row] && Open(s.world.rows, s.name, at);
    StepSound(s.world, c);
    w := Step(s.world, c);
    hide Sound, Recorded, Apply, Takes, Open;
    var told := Told(s, who, s.world, CampaignSent(who));
    assert Do(told, Upsert(|s.calls|, row.lease, at), delay).calls == s.calls + [CampaignRow(who, row)];
  }

  /** A call all the way: asked, carried out by `act`, answered and received. */
  ghost predicate RoundTrip(s: System, who: string, act: Action, at: int, measured: int, delay: int,
                            s1: System, s2: System, s3: System, s4: System) {
    && Then(s, Ask(who), s1, delay) && Then(s1, act, s2, delay)
    && Then(s2, Answer(|s.calls|, at, measured), s3, delay) && Then(s3, Receive(who), s4, delay)
  }

  /** The row is stored and the handle leads under it. */
  predicate LeadsUnder(s: System, who: string, row: Lease, measured: int, s': System)
    requires who in s.handles
  {
    && s'.world.rows == s.world.rows[s.name := row]
    && s'.handles == s.handles[who := Leading(s.handles[who], row, measured, s.now)]
  }

  lemma WonRoundTrip(s: System, who: string, act: Action, call: Call, row: Lease, result: Call, w: World, at: int,
                     measured: int, delay: int) returns (s1: System, s2: System, s3: System, s4: System)
    requires Sound(s.world) && Sound(w) && who in s.handles && s.handles[who].call.None? && call == Request(s, who)
    requires InTime(s, who, at, measured, delay) && row.expireAt == at + 1000 * s.handles[who].ttl
    requires w.rows == s.world.rows[s.name := row] && row.leader == who
    requires (act.Upsert? || act.Extend?) && act.i == |s.calls|
    requires result == CampaignRow(who, row) || result == RenewRow(who, Some(row))
    requires Enabled(Told(s, who, s.world, call), act, delay)
    requires Do(Told(s, who, s.world, call), act, delay) == Told(s, who, w, result)
    ensures RoundTrip(s, who, act, at, measured, delay, s1, s2, s3, s4) && LeadsUnder(s, who, row, measured, s4)
  {
    hide Sound, Do, Enabled, Then, Told, Leading, Request;
    s1, s2, s3 := Asked(s, who, act, call, result,
                        Answered(who, true, Some(row), row.expireAt - measured, measured), w, at, measured, delay);
    s4 := LeadsThen(s, who, w, row, measured, delay);
  }

  /** A leader whose renewal gets through leads on, for its lifetime less one second from when the
      broker measured it. */
  lemma RenewalLeadsOn(s: System, who: string, at: int, measured: int, delay: int)
    returns (s1: System, s2: System, s3: System, s4: System)
    requires Sound(s.world) && who in s.handles && s.handles[who].call.None? && InTime(s, who, at, measured, delay)
    requires s.name in s.world.rows && s.handles[who].leader == Some(s.world.rows[s.name])
    requires IsLeader(s.handles[who], s.now) && s.world.rows[s.name].leader == who
    requires at < s.world.rows[s.name].expireAt
    ensures RoundTrip(s, who, Extend(|s.calls|, at), at, measured, delay, s1, s2, s3, s4)
    ensures LeadsUnder(s, who, s.world.rows[s.name].(expireAt := at + 1000 * s.handles[who].ttl), measured, s4)
  {
    var row := s.world.rows[s.name].(expireAt := at + 1000 * s.handles[who].ttl);
    hide Sound, Do, Enabled, RoundTrip, LeadsUnder, Told;
    var w := ExtendStep(s, who, row, at, delay);
    s1, s2, s3, s4 := WonRoundTrip(s, who, Extend(|s.calls|, at), RenewSent(who, row.term, row.lease), row,
                                   RenewRow(who, Some(row)), w, at, measured, delay);
  }

  /** A candidate whose campaign finds the election open leads, in the next term. */
  lemma CampaignWins(s: System, who: string, lease: string, at: int, measured: int, delay: int)
    returns (s1: System, s2: System, s3: System, s4: System)
    requires Sound(s.world) && who in s.handles && s.handles[who].call.None? && InTime(s, who, at, measured, delay)
    requires !IsLeader(s.handles[who], s.now)
    requires s.name in s.world.rows ==> s.world.rows[s.name].expireAt <= at
    ensures RoundTrip(s, who, Upsert(|s.calls|, lease, at), at, measured, delay, s1, s2, s3, s4)
    ensures LeadsUnder(s, who, Lease(who, if s.name in s.world.rows then s.world.rows[s.name].term + 1 else 1, lease,
                                     at + 1000 * s.handles[who].ttl), measured, s4)
  {
    var term := if s.name in s.world.rows then s.world.rows[s.name].term + 1 else 1;
    var row := Lease(who, term, lease, at + 1000 * s.handles[who].ttl);
    hide Sound, Do, Enabled, RoundTrip, LeadsUnder, Told;
    var w := UpsertStep(s, who, row, at, delay);
    s1, s2, s3, s4 := WonRoundTrip(s, who, Upsert(|s.calls|, lease, at), CampaignSent(who), row,
                                   CampaignRow(who, row), w, at, measured, delay);
  }

  lemma RefusedStep(s: System, who: string, lease: string, at: int, delay: int) returns (w: World, s2: System, s3: System)
    requires Sound(s.world) && who in s.handles && Reading(s, at) && ValidTtl(s.handles[who].ttl)
    requires s.name in s.world.rows && at < s.world.rows[s.name].expireAt
    ensures Sound(w) && w.rows == s.world.rows
    ensures Then(Told(s, who, s.world, CampaignSent(who)), Upsert(|s.calls|, lease, at), s2, delay)
    ensures Then(s2, ReadRow(|s.calls|), s3, delay) && s3 == Told(s, who, w, CampaignRow(who, s.world.rows[s.name]))
  {
    var c := Campaign(s.name, who, s.handles[who].ttl, lease, at);
    assert Apply(s.world.rows, c) == s.world.rows;
    StepSound(s.world, c);
    w := Step(s.world, c);
    hide Sound, Recorded, Apply;
    s2 := Do(Told(s, who, s.world, CampaignSent(who)), Upsert(|s.calls|, lease, at), delay);
    assert s2.calls == s.calls + [CampaignRefused(who)];
    s3 := Do(s2, ReadRow(|s.calls|), delay);
    assert s3.calls == s.calls + [CampaignRow(who, s.world.rows[s.name])];
  }

  lemma FollowStep(s: System, who: string, w: World, row: Lease, at: int, measured: int, delay: int)
    returns (s4: System, s5: System)
    requires Sound(w) && who in s.handles && row.leader != who
    requires measured * MS <= s.now <= measured * MS + delay
    ensures Then(Told(s, who, w, CampaignRow(who, row)), Answer(|s.calls|, at, measured), s4, delay)
    ensures Then(s4, Receive(who), s5, delay) && s5.world == w
    ensures var h := s.handles[who];
      s5.handles == s.handles[who := Handle(h.ttl, h.offset, false, 0, Some(row), None)]
  {
    hide Sound, RemainingTtl;
    s4 := Do(Told(s, who, w, CampaignRow(who, row)), Answer(|s.calls|, at, measured), delay);
    assert s4.calls[|s.calls|] == Answered(who, false, Some(row), RemainingTtl(row, measured), measured);
    s5 := Do(s4, Receive(who), delay);
  }

  /** A candidate whose campaign finds another one leading follows it. */
  lemma CampaignLoses(s: System, who: string, lease: string, at: int, measured: int, delay: int)
    returns (s1: System, s2: System, s3: System, s4: System, s5: System)
    requires Sound(s.world) && who in s.handles && s.handles[who].call.None? && ValidTtl(s.handles[who].ttl)
    requires !IsLeader(s.handles[who], s.now)
    requires s.name in s.world.rows && at < s.world.rows[s.name].expireAt && s.world.rows[s.name].leader != who
    requires Reading(s, at) && measured * MS <= s.now <= measured * MS + delay
    ensures Then(s, Ask(who), s1, delay) && Then(s1, Upsert(|s.calls|, lease, at), s2, delay)
    ensures Then(s2, ReadRow(|s.calls|), s3, delay)
    ensures Then(s3, Answer(|s.calls|, at, measured), s4, delay) && Then(s4, Receive(who), s5, delay)
    ensures var h := s.handles[who];
      && s5.world.rows == s.world.rows
      && s5.handles == s.handles[who := Handle(h.ttl, h.offset, false, 0, Some(s.world.rows[s.name]), None)]
  {
    s1 := Do(s, Ask(who), delay);
    assert s1 == Told(s, who, s.world, CampaignSent(who)) && Then(s, Ask(who), s1, delay);
    hide Sound, Do, Enabled, Then, Told;
    var w;
    w, s2, s3 := RefusedStep(s, who, lease, at, delay);
    s4, s5 := FollowStep(s, who, w, s.world.rows[s.name], at, measured, delay);
  }

  // ----- the margin is exact ---------------------------------------------------------------

  const LATE: int := 1000 * MS + 1
  const ROW_A := Lease("a", 1, "x", 3000)
  const ROW_B := Lease("b", 2, "y", 6000)
  const IDLE := Handle(3, 0, false, 0, None, None)
  const START := System("e", World(map[], map[], 0), [], map["a" := IDLE, "b" := IDLE], 0)

  /** `a` wins a three second lease at once and is told one nanosecond too late. */
  const OVERDUE := System("e",
    World(map["e" := ROW_A], map["e" := [Term("a", "x", 0, 3000)]], 0),
    [Answered("a", true, Some(ROW_A), 3000, 0)],
    map["a" := Handle(3, 0, true, 3000 * MS + 1, Some(ROW_A), None), "b" := IDLE],
    LATE)

  /** When that lease ends, `b` wins the next one while `a` still believes in its own. */
  const BOTH := System("e",
    World(map["e" := ROW_B], map["e" := [Term("a", "x", 0, 3000), Term("b", "y", 3000, 6000)]], 3000),
    [Answered("a", true, Some(ROW_A), 3000, 0), Answered("b", true, Some(ROW_B), 3000, 3000)],
    map["a" := Handle(3, 0, true, 3000 * MS + 1, Some(ROW_A), None),
        "b" := Handle(3, 0, true, 5000 * MS, Some(ROW_B), None)],
    3000 * MS)

  /** `states` with `actions` leads from `s` to `t`. */
  ghost predicate Leads(s: System, states: seq<System>, actions: seq<Action>, t: System, delay: int) {
    && |states| == |actions| + 1 && states[0] == s && states[|actions|] == t
    && forall k :: 0 <= k < |actions| ==>
         && Sound(states[k].world) && Enabled(states[k], actions[k], delay)
         && states[k + 1] == Do(states[k], actions[k], delay)
  }

  lemma WinA()
    ensures Sound(START.world) && Sound(OVERDUE.world)
    ensures Step(START.world, Campaign("e", "a", 3, "x", 0)) == OVERDUE.world
  {
    var w := Step(START.world, Campaign("e", "a", 3, "x", 0));
    assert w.rows["e"] == ROW_A;
    assert w.terms["e"] == [Term("a", "x", 0, 3000)];
    assert SoundName(OVERDUE.world, "e");
  }

  lemma SoundAB()
    ensures Sound(OVERDUE.world) && Sound(BOTH.world)
  {
    assert SoundName(OVERDUE.world, "e");
    assert SoundName(BOTH.world, "e");
  }

  lemma WinB()
    ensures Sound(OVERDUE.world) && Sound(BOTH.world)
    ensures Step(OVERDUE.world, Campaign("e", "b", 3, "y", 3000)) == BOTH.world
  {
    SoundAB();
    hide Sound;
    var c := Campaign("e", "b", 3, "y", 3000);
    assert Apply(OVERDUE.world.rows, c) == map["e" := ROW_B];
    var ts := Recorded(OVERDUE.world, c);
    assert ts["e"] == [Term("a", "x", 0, 3000)] + [Term("b", "y", 3000, 6000)];
    assert ts["e"] == BOTH.world.terms["e"];
    assert ts == BOTH.world.terms;
  }

  const ASKED := START.(calls := [CampaignSent("a")], handles := START.handles["a" := IDLE.(call := Some(0))])
  const GRANTED := ASKED.(world := OVERDUE.world, calls := [CampaignRow("a", ROW_A)])
  const ANSWERED := GRANTED.(calls := OVERDUE.calls)

  lemma AskedStep(delay: int)
    ensures Then(START, Ask("a"), ASKED, delay)
  {
    WinA();
    hide Step, Sound;
    assert Do(START, Ask("a"), delay).calls == ASKED.calls;
  }

  lemma GrantedStep(delay: int)
    ensures Then(ASKED, Upsert(0, "x", 0), GRANTED, delay)
  {
    WinA();
    hide Step, Sound;
    assert Do(ASKED, Upsert(0, "x", 0), delay).calls == GRANTED.calls;
  }

  lemma AnsweredStep(delay: int)
    ensures Then(GRANTED, Answer(0, 0, 0), ANSWERED, delay)
  {
    WinA();
    hide Step, Sound;
    assert Do(GRANTED, Answer(0, 0, 0), delay).calls == ANSWERED.calls;
  }

  lemma LateStep(delay: int)
    requires delay >= LATE
    ensures Then(ANSWERED, Tick(LATE), ANSWERED.(now := LATE), delay)
    ensures Then(ANSWERED.(now := LATE), Receive("a"), OVERDUE, delay)
  {
    WinA();
    hide Step, Sound;
    assert Do(ANSWERED.(now := LATE), Receive("a"), delay).handles == OVERDUE.handles;
  }

  lemma FirstHalf(delay: int) returns (states: seq<System>, actions: seq<Action>)
    requires delay >= LATE
    ensures Leads(START, states, actions, OVERDUE, delay)
  {
    AskedStep(delay);
    GrantedStep(delay);
    AnsweredStep(delay);
    LateStep(delay);
    hide *;
    states, actions := FiveSteps(START, Ask("a"), ASKED, Upsert(0, "x", 0), GRANTED, Answer(0, 0, 0), ANSWERED,
                                 Tick(LATE), ANSWERED.(now := LATE), Receive("a"), OVERDUE, delay);
  }

  lemma FiveSteps(s0: System, a0: Action, s1: System, a1: Action, s2: System, a2: Action, s3: System, a3: Action,
                  s4: System, a4: Action, s5: System, delay: int) returns (states: seq<System>, actions: seq<Action>)
    requires Then(s0, a0, s1, delay) && Then(s1, a1, s2, delay) && Then(s2, a2, s3, delay)
    requires Then(s3, a3, s4, delay) && Then(s4, a4, s5, delay)
    ensures Leads(s0, states, actions, s5, delay)
  {
    hide Do, Enabled, Sound;
    actions := [a0, a1, a2, a3, a4];
    states := [s0, s1, s2, s3, s4, s5];
  }

  lemma SecondHalf(delay: int) returns (states: seq<System>, actions: seq<Action>)
    requires delay >= LATE
    ensures Leads(OVERDUE, states, actions, BOTH, delay)
  {
    WinB();
    hide Step, Sound;
    actions := [Tick(3000 * MS), Ask("b"), Upsert(1, "y", 3000), Answer(1, 3000, 3000), Receive("b")];
    var s0 := OVERDUE;
    var s1 := Do(s0, actions[0], delay);
    var s2 := Do(s1, actions[1], delay);
    assert s2.calls == [OVERDUE.calls[0], CampaignSent("b")];
    var s3 := Do(s2, actions[2], delay);
    assert s3.calls == [OVERDUE.calls[0], CampaignRow("b", ROW_B)];
    var s4 := Do(s3, actions[3], delay);
    assert s4.calls == BOTH.calls;
    var s5 := Do(s4, actions[4], delay);
    assert s5.handles == BOTH.handles;
    states := [s0, s1, s2, s3, s4, s5];
  }

  lemma LateAnswerMakesTwoLeaders(delay: int) returns (states: seq<System>, actions: seq<Action>)
    requires delay > 1000 * MS
    ensures IsRun(states, actions, delay) && !Exclusive(states[|states| - 1])
  {
    var states1, actions1 := FirstHalf(delay);
    var states2, actions2 := SecondHalf(delay);
    hide Do, Enabled, Sound;
    states := states1 + states2[1..];
    actions := actions1 + actions2;
    var n := |actions1|;
    forall k | 0 <= k < |actions|
      ensures && Sound(states[k].world) && Enabled(states[k], actions[k], delay)
              && states[k + 1] == Do(states[k], actions[k], delay)
    {
      if k >= n {
        assert states[k] == states2[k - n] && states[k + 1] == states2[k + 1 - n];
        assert actions[k] == actions2[k - n];
      }
    }
    assert IsLeader(BOTH.handles["a"], BOTH.now) && IsLeader(BOTH.handles["b"], BOTH.now);
  }

  /** Leadership is exclusive over every run exactly when the delay is within the margin. */
  lemma MarginIsExact(delay: int)
    ensures (forall states, actions, k: nat ::
               IsRun(states, actions, delay) && k < |states| ==> Exclusive(states[k]))
            <==> delay <= 1000 * MS
  {
    if delay <= 1000 * MS {
      forall states, actions, k: nat | IsRun(states, actions, delay) && k < |states|
        ensures Exclusive(states[k])
      {
        AtMostOneLeader(states, actions, delay, k);
      }
    } else {
      var states, actions := LateAnswerMakesTwoLeaders(delay);
      var k: nat := |states| - 1;
      assert !Exclusive(states[k]);
    }
  }
}
