/** The prefetching subscribe loop (`run_subscribe_loop` in src/delivery.rs): how many messages it
    holds, and how each message it claimed leaves its hands. */
module SubscribeLoop {
  import opened Wrappers
  import opened Collections
  import C = Claim
  import M = MessageStore

  /** One claimed message: its id and the lease of this claim. */
  datatype Held = Held(id: string, lease: string)

  /** How a claimed message leaves the loop: by the one database call made for it, or, if the
      broker is shutting down or that call fails, by its lease running out. */
  datatype Fate = Delivered | Failed | Dropped | Released | LeftToExpire(cause: Cause)

  datatype Cause = Shutdown | DatabaseError

  /** `free` permits of `capacity` are in the semaphore; every buffered message and every
      delivery task holds one. */
  datatype Loop = Loop(capacity: nat, free: nat, ready: seq<Held>, tasks: set<Held>,
                       fates: map<Held, Fate>, claimed: set<Held>, running: bool, cancelled: bool)

  function Capacity(prefetch: nat): nat { if prefetch < 1 then 1 else prefetch }

  function Start(prefetch: nat): Loop {
    Loop(Capacity(prefetch), Capacity(prefetch), [], {}, map[], {}, true, false)
  }

  /** One turn's observations: whether half the visibility time has passed since the claim,
      whether the topic is ephemeral, on how many streams the message was sent, whether the
      database call of this turn succeeds, and whether the subscriber's own stream is closed. */
  datatype Turn = Turn(stale: bool, ephemeral: bool, sent: nat, callOk: bool, closed: bool)

  datatype Step =
    | Fill(reserved: nat, got: seq<Held>)
    | Dispatch(turn: Turn)
    | Finish(task: Held, allOk: bool, callOk: bool)
    | Cancel
    | Break
    | Return(callOk: bool)

  /** What a database call made for a message comes to. */
  function Called(fate: Fate, ok: bool): Fate {
    if ok then fate else LeftToExpire(DatabaseError)
  }

  /** Whether the turn hands the message to a task that waits for acknowledgements. */
  predicate Waits(t: Turn) { !t.stale && !t.ephemeral && t.sent > 0 }

  function TurnFate(t: Turn): Fate {
    Called(if t.stale then Released
           else if t.sent > 0 then Delivered
           else if t.ephemeral then Dropped
           else Failed, t.callOk)
  }

  function TaskFate(allOk: bool, cancelled: bool, callOk: bool): Fate {
    if cancelled then LeftToExpire(Shutdown)
    else Called(if allOk then Delivered else Failed, callOk)
  }

  /** The messages not yet claimed are new to the loop: a claim draws a fresh lease. */
  predicate Fresh(l: Loop, got: seq<Held>) {
    Distinct(got) && forall i :: 0 <= i < |got| ==> got[i] !in l.claimed
  }

  predicate Enabled(l: Loop, batchSize: nat, s: Step) {
    match s
    case Fill(reserved, got) =>
      && l.running && l.ready == [] && 1 <= reserved <= l.free && reserved <= C.Clamp(batchSize)
      && |got| <= C.Clamp(reserved) && Fresh(l, got)
    case Dispatch(_) => l.running && l.ready != []
    case Finish(task, _, _) => task in l.tasks
    case Cancel => true
    case Break => l.running
    case Return(_) => !l.running && l.ready != []
  }

  /** The front message leaves the buffer for good; its permit is dropped. */
  function Leave(l: Loop, fate: Fate): Loop
    requires l.ready != []
  {
    l.(ready := l.ready[1..], free := l.free + 1, fates := l.fates[l.ready[0] := fate])
  }

  function Do(l: Loop, batchSize: nat, s: Step): Loop
    requires Enabled(l, batchSize, s)
  {
    match s
    case Fill(reserved, got) =>
      // each message takes a permit, as far as the reserved ones go; the rest are dropped
      var kept := if |got| < reserved then got else got[..reserved];
      l.(ready := kept, free := l.free - |kept|, claimed := l.claimed + set c | c in got)
    case Dispatch(t) =>
      if Waits(t) then l.(ready := l.ready[1..], tasks := l.tasks + {l.ready[0]})
      else if !t.stale && t.sent == 0 && t.closed then Leave(l, TurnFate(t)).(running := false)
      else Leave(l, TurnFate(t))
    case Finish(task, allOk, callOk) =>
      l.(tasks := l.tasks - {task}, free := l.free + 1,
         fates := l.fates[task := TaskFate(allOk, l.cancelled, callOk)])
    case Cancel => l.(cancelled := true)
    case Break => l.(running := false)
    case Return(callOk) => Leave(l, Called(Released, callOk))
  }

  // ----- conservation ----------------------------------------------------------------------

  predicate Permits(l: Loop) { l.free + |l.ready| + |l.tasks| == l.capacity }

  /** A message that was claimed is buffered, in a task, or gone with a fate: one of the three. */
  predicate PlacedOnce(l: Loop, c: Held) {
    && (c in l.claimed <==> c in l.ready || c in l.tasks || c in l.fates)
    && !(c in l.ready && c in l.tasks) && !(c in l.ready && c in l.fates)
    && !(c in l.tasks && c in l.fates)
  }

  ghost predicate Placed(l: Loop) { Distinct(l.ready) && forall c :: PlacedOnce(l, c) }

  /** Only a shutdown lets a task leave its message without a database call. */
  predicate Excused(l: Loop) {
    forall c :: c in l.fates && l.fates[c] == LeftToExpire(Shutdown) ==> l.cancelled
  }

  ghost predicate Conserved(l: Loop) { Permits(l) && Placed(l) && Excused(l) }

  /** A claim never returns more than the permits reserved for it, so pairing messages with
      permits loses none of them. */
  lemma PairingLosesNone(l: Loop, batchSize: nat, reserved: nat, got: seq<Held>)
    requires Enabled(l, batchSize, Fill(reserved, got))
    ensures |got| <= reserved && Do(l, batchSize, Fill(reserved, got)).ready == got
  {
    assert reserved == |got| ==> got[..reserved] == got;
  }

  lemma FillPlaces(l: Loop, batchSize: nat, reserved: nat, got: seq<Held>)
    requires Conserved(l) && Enabled(l, batchSize, Fill(reserved, got))
    ensures Conserved(Do(l, batchSize, Fill(reserved, got)))
  {
    PairingLosesNone(l, batchSize, reserved, got);
    var m := Do(l, batchSize, Fill(reserved, got));
    forall c ensures PlacedOnce(m, c) { assert PlacedOnce(l, c); }
  }

  /** Taking the front off: it was there once. */
  lemma FrontOnce(s: seq<Held>, c: Held)
    requires s != [] && Distinct(s)
    ensures Distinct(s[1..])
    ensures c in s[1..] <==> c in s && c != s[0]
  {
    if c in s && c != s[0] {
      var i :| 0 <= i < |s| && s[i] == c;
      assert s[1..][i - 1] == c;
    }
  }

  lemma LeaveConserves(l: Loop, fate: Fate)
    requires Conserved(l) && l.ready != []
    requires fate == LeftToExpire(Shutdown) ==> l.cancelled
    ensures Conserved(Leave(l, fate))
  {
    var m := Leave(l, fate);
    forall c ensures PlacedOnce(m, c) {
      assert PlacedOnce(l, c);
      FrontOnce(l.ready, c);
    }
    FrontOnce(l.ready, l.ready[0]);
  }

  lemma SpawnConserves(l: Loop, batchSize: nat, t: Turn)
    requires Conserved(l) && Enabled(l, batchSize, Dispatch(t)) && Waits(t)
    ensures Conserved(Do(l, batchSize, Dispatch(t)))
  {
    var m := Do(l, batchSize, Dispatch(t));
    assert PlacedOnce(l, l.ready[0]);
    forall c ensures PlacedOnce(m, c) {
      assert PlacedOnce(l, c);
      FrontOnce(l.ready, c);
    }
    FrontOnce(l.ready, l.ready[0]);
  }

  lemma FinishConserves(l: Loop, batchSize: nat, s: Step)
    requires Conserved(l) && s.Finish? && Enabled(l, batchSize, s)
    ensures Conserved(Do(l, batchSize, s))
  {
    var m := Do(l, batchSize, s);
    forall c ensures PlacedOnce(m, c) { assert PlacedOnce(l, c); }
  }

  lemma FlagsConserve(l: Loop, running: bool)
    requires Conserved(l)
    ensures Conserved(l.(running := running)) && Conserved(l.(cancelled := true))
  {
    var m, n := l.(running := running), l.(cancelled := true);
    forall c ensures PlacedOnce(m, c) && PlacedOnce(n, c) { assert PlacedOnce(l, c); }
  }

  lemma StepConserves(l: Loop, batchSize: nat, s: Step)
    requires Conserved(l) && Enabled(l, batchSize, s)
    ensures Conserved(Do(l, batchSize, s))
  {
    hide Conserved;
    match s {
      case Fill(reserved, got) => FillPlaces(l, batchSize, reserved, got);
      case Dispatch(t) =>
        if Waits(t) {
          SpawnConserves(l, batchSize, t);
        } else {
          LeaveConserves(l, TurnFate(t));
          FlagsConserve(Leave(l, TurnFate(t)), false);
        }
      case Finish(_, _, _) => FinishConserves(l, batchSize, s);
      case Cancel => FlagsConserve(l, true);
      case Break => FlagsConserve(l, false);
      case Return(ok) => LeaveConserves(l, Called(Released, ok));
    }
  }

  // ----- every run -------------------------------------------------------------------------

  ghost predicate Follows(l: Loop, batchSize: nat, s: Step, m: Loop) {
    Enabled(l, batchSize, s) && m == Do(l, batchSize, s)
  }

  ghost predicate IsRun(prefetch: nat, batchSize: nat, loops: seq<Loop>, steps: seq<Step>) {
    && |loops| == |steps| + 1 && loops[0] == Start(prefetch)
    && forall k :: 0 <= k < |steps| ==> Follows(loops[k], batchSize, steps[k], loops[k + 1])
  }

  lemma {:induction false} RunConserves(prefetch: nat, batchSize: nat, loops: seq<Loop>,
                                        steps: seq<Step>, k: nat)
    requires IsRun(prefetch, batchSize, loops, steps) && k < |loops|
    ensures Conserved(loops[k]) && loops[k].capacity == Capacity(prefetch)
  {
    if k > 0 {
      RunConserves(prefetch, batchSize, loops, steps, k - 1);
      assert Follows(loops[k - 1], batchSize, steps[k - 1], loops[k - 1 + 1]);
      StepConserves(loops[k - 1], batchSize, steps[k - 1]);
    } else {
      forall c ensures PlacedOnce(Start(prefetch), c) {}
    }
  }

  /** In every run the buffered messages and those in flight never exceed the prefetch limit. */
  lemma PrefetchIsABound(prefetch: nat, batchSize: nat, loops: seq<Loop>, steps: seq<Step>, k: nat)
    requires IsRun(prefetch, batchSize, loops, steps) && k < |loops|
    ensures |loops[k].ready| + |loops[k].tasks| <= Capacity(prefetch)
  {
    RunConserves(prefetch, batchSize, loops, steps, k);
  }

  /** When the loop has ended, every permit is back, and every message it ever claimed left by
      one call, or was left to its lease because that call failed or the broker was shutting
      down. */
  lemma EveryClaimIsAccountedFor(prefetch: nat, batchSize: nat, loops: seq<Loop>, steps: seq<Step>,
                                 k: nat, c: Held)
    requires IsRun(prefetch, batchSize, loops, steps) && k < |loops|
    requires !loops[k].running && loops[k].ready == [] && loops[k].tasks == {}
    ensures loops[k].free == Capacity(prefetch)
    ensures c in loops[k].claimed <==> c in loops[k].fates
    ensures c in loops[k].fates && loops[k].fates[c] == LeftToExpire(Shutdown) ==> loops[k].cancelled
  {
    RunConserves(prefetch, batchSize, loops, steps, k);
    assert PlacedOnce(loops[k], c);
  }

  lemma FateStays(l: Loop, batchSize: nat, s: Step, c: Held)
    requires Conserved(l) && Enabled(l, batchSize, s) && c in l.fates
    ensures var m := Do(l, batchSize, s); c in m.fates && m.fates[c] == l.fates[c]
  {
    assert PlacedOnce(l, c);
  }

  /** A fate is final: no later step makes a second call for the claim. */
  lemma {:induction false} FateIsFinal(prefetch: nat, batchSize: nat, loops: seq<Loop>,
                                       steps: seq<Step>, k: nat, j: nat, c: Held)
    requires IsRun(prefetch, batchSize, loops, steps) && k <= j < |loops| && c in loops[k].fates
    ensures c in loops[j].fates && loops[j].fates[c] == loops[k].fates[c]
    decreases j
  {
    hide Do, Enabled, Conserved;
    if j > k {
      FateIsFinal(prefetch, batchSize, loops, steps, k, j - 1, c);
      RunConserves(prefetch, batchSize, loops, steps, j - 1);
      assert Follows(loops[j - 1], batchSize, steps[j - 1], loops[j - 1 + 1]);
      FateStays(loops[j - 1], batchSize, steps[j - 1], c);
    }
  }

  /** A loop that broke off claims and dispatches nothing more, in every run. */
  lemma {:induction false} BrokenOffForGood(prefetch: nat, batchSize: nat, loops: seq<Loop>, steps: seq<Step>,
                                            k: nat, j: nat)
    requires IsRun(prefetch, batchSize, loops, steps) && k < j < |loops| && steps[k].Break?
    ensures !loops[j].running && loops[j].claimed == loops[k].claimed
    decreases j
  {
    assert Follows(loops[j - 1], batchSize, steps[j - 1], loops[j - 1 + 1]);
    if j > k + 1 { BrokenOffForGood(prefetch, batchSize, loops, steps, k, j - 1); }
  }

  // ----- calls -----------------------------------------------------------------------------

  /** The claim a step makes a database call for, whether or not the call succeeds. */
  function CallFor(l: Loop, s: Step): set<Held> {
    match s
    case Dispatch(t) => if l.ready == [] || Waits(t) then {} else {l.ready[0]}
    case Finish(task, _, _) => if l.cancelled then {} else {task}
    case Return(_) => if l.ready == [] then {} else {l.ready[0]}
    case _ => {}
  }

  predicate CallOk(s: Step) {
    match s
    case Dispatch(t) => t.callOk
    case Finish(_, _, callOk) => callOk
    case Return(callOk) => callOk
    case _ => true
  }

  ghost predicate CallFailed(loops: seq<Loop>, steps: seq<Step>, j: nat, c: Held)
    requires j < |steps| && |loops| == |steps| + 1
  {
    c in CallFor(loops[j], steps[j]) && !CallOk(steps[j])
  }

  lemma NewFate(l: Loop, batchSize: nat, s: Step, c: Held)
    requires Enabled(l, batchSize, s) && c !in l.fates && c in Do(l, batchSize, s).fates
    ensures Do(l, batchSize, s).fates[c] == LeftToExpire(DatabaseError) <==>
            c in CallFor(l, s) && !CallOk(s)
    ensures Do(l, batchSize, s).fates[c] == LeftToExpire(Shutdown) <==> c !in CallFor(l, s)
  {
  }

  /** A claim is left to its lease for a database error only after the one call made for it had
      failed. */
  lemma {:induction false} ErrorMeansFailedCall(prefetch: nat, batchSize: nat, loops: seq<Loop>,
                                                steps: seq<Step>, k: nat, c: Held) returns (j: nat)
    requires IsRun(prefetch, batchSize, loops, steps) && k < |loops|
    requires c in loops[k].fates && loops[k].fates[c] == LeftToExpire(DatabaseError)
    ensures j < k && CallFailed(loops, steps, j, c)
  {
    assert k > 0;
    assert Follows(loops[k - 1], batchSize, steps[k - 1], loops[k - 1 + 1]);
    if c in loops[k - 1].fates {
      FateIsFinal(prefetch, batchSize, loops, steps, k - 1, k, c);
      j := ErrorMeansFailedCall(prefetch, batchSize, loops, steps, k - 1, c);
    } else {
      NewFate(loops[k - 1], batchSize, steps[k - 1], c);
      j := k - 1;
    }
  }

  // ----- with the table --------------------------------------------------------------------

  /** The loop and the table it claims from. */
  datatype Site = Site(loop: Loop, world: M.World)

  /** What a statement of the loop is given besides the claim. */
  datatype Args = Args(now: int, until: int, lease: string, picked: set<string>, seen: nat, maxAttempts: int)

  datatype Move = Turned(step: Step, args: Args) | Table(op: M.Op)

  /** What the claim took, each row once, under the lease it drew. */
  predicate Took(rows: M.Rows, op: M.Op, got: seq<Held>)
    requires op.Claim?
  {
    && Distinct(got)
    && (forall c :: c in got ==> c.lease == op.lease && M.ClaimedBy(rows, op, c.id))
    && (forall id :: M.ClaimedBy(rows, op, id) && id in op.picked ==> Held(id, op.lease) in got)
  }

  function ClaimOp(args: Args): M.Op { M.Claim(args.picked, args.lease, args.until) }

  /** The statement a step issues. */
  function Statement(l: Loop, s: Step, args: Args): Option<M.Op> {
    match s
    case Fill(_, got) => if got == [] then None else Some(ClaimOp(args))
    case Dispatch(t) =>
      if l.ready == [] || Waits(t) || !t.callOk then None
      else
        var c := l.ready[0];
        Some(if t.stale then M.Release(c.id, c.lease, args.now)
             else if t.sent > 0 then M.Deliver(c.id, c.lease)
             else if t.ephemeral then M.DropClaimed(c.id, c.lease)
             else M.Fail(c.id, c.lease, args.seen, args.maxAttempts, args.now))
    case Finish(task, allOk, callOk) =>
      if l.cancelled || !callOk then None
      else Some(if allOk then M.Deliver(task.id, task.lease)
                else M.Fail(task.id, task.lease, args.seen, args.maxAttempts, args.now))
    case Return(callOk) =>
      if l.ready == [] || !callOk then None
      else Some(M.Release(l.ready[0].id, l.ready[0].lease, args.now))
    case _ => None
  }

  /** As for the loop alone, but that a claim draws a new lease stands for its messages being new. */
  predicate CanMove(w: Site, batchSize: nat, move: Move) {
    match move
    case Table(op) => M.Possible(w.world, op)
    case Turned(Fill(reserved, got), args) =>
      && w.loop.running && w.loop.ready == [] && 1 <= reserved <= w.loop.free && reserved <= C.Clamp(batchSize)
      && |got| <= C.Clamp(reserved)
      && (got != [] ==> args.lease !in w.world.used && Took(w.world.rows, ClaimOp(args), got))
    case Turned(step, _) => Enabled(w.loop, batchSize, step)
  }

  ghost predicate LeasesUsed(w: Site) { forall c :: c in w.loop.claimed ==> c.lease in w.world.used }

  lemma MoveEnabled(w: Site, batchSize: nat, move: Move)
    requires CanMove(w, batchSize, move) && move.Turned? && LeasesUsed(w)
    ensures Enabled(w.loop, batchSize, move.step)
    ensures var op := Statement(w.loop, move.step, move.args); op.Some? ==> M.Possible(w.world, op.value)
  {
    if move.step.Fill? {
      var got := move.step.got;
      forall i | 0 <= i < |got| ensures got[i] !in w.loop.claimed { assert got[i] in got; }
    }
  }

  ghost function Moved(w: Site, batchSize: nat, move: Move): Site
    requires CanMove(w, batchSize, move) && LeasesUsed(w)
  {
    match move
    case Table(op) => w.(world := M.Step(w.world, op))
    case Turned(step, args) =>
      MoveEnabled(w, batchSize, move);
      var op := Statement(w.loop, step, args);
      Site(Do(w.loop, batchSize, step), if op.Some? then M.Step(w.world, op.value) else w.world)
  }

  /** If the step claims messages, it does so under a new lease. */
  predicate Draws(w: Site, step: Step, args: Args) {
    step.Fill? && step.got != [] ==> args.lease !in w.world.used && Took(w.world.rows, ClaimOp(args), step.got)
  }

  /** With the table the loop can do what it can do alone, and others what they can. */
  lemma AtAnyTime(w: Site, batchSize: nat, step: Step, args: Args, op: M.Op)
    requires LeasesUsed(w)
    ensures Enabled(w.loop, batchSize, Cancel)
    ensures Enabled(w.loop, batchSize, step) && Draws(w, step, args) ==> CanMove(w, batchSize, Turned(step, args))
    ensures M.Possible(w.world, op) ==>
      && CanMove(w, batchSize, Table(op))
      && Moved(w, batchSize, Table(op)) == w.(world := M.Step(w.world, op))
  {
  }

  /** The message left by the call made for it. */
  predicate Settled(l: Loop, c: Held) { c in l.fates && !l.fates[c].LeftToExpire? }

  ghost predicate SettledGone(w: Site) {
    forall c :: Settled(w.loop, c) ==> !M.Held(w.world.rows, c.id, c.lease)
  }

  ghost predicate SiteInv(w: Site) {
    Conserved(w.loop) && M.Sound(w.world) && LeasesUsed(w) && SettledGone(w)
  }

  /** The calls that settle a claim end it. */
  lemma StatementEnds(w: Site, step: Step, args: Args, c: Held)
    requires c in CallFor(w.loop, step) && CallOk(step)
    ensures var op := Statement(w.loop, step, args);
      op.Some? && !M.Held(M.Apply(w.world.rows, op.value), c.id, c.lease)
  {
  }

  lemma NewlySettled(w: Site, batchSize: nat, step: Step, c: Held)
    requires Enabled(w.loop, batchSize, step)
    requires Settled(Do(w.loop, batchSize, step), c) && !Settled(w.loop, c) && Conserved(w.loop)
    ensures c in CallFor(w.loop, step) && CallOk(step)
  {
    if c in w.loop.fates {
      FateStays(w.loop, batchSize, step, c);
    } else {
      NewFate(w.loop, batchSize, step, c);
    }
  }

  lemma SettledStays(w: Site, op: M.Op, c: Held)
    requires SiteInv(w) && M.Possible(w.world, op) && Settled(w.loop, c)
    ensures !M.Held(M.Step(w.world, op).rows, c.id, c.lease)
  {
    assert PlacedOnce(w.loop, c);
    M.NotHeldStays(w.world, op, c.id, c.lease);
  }

  lemma TurnKeepsGone(w: Site, batchSize: nat, move: Move)
    requires SiteInv(w) && CanMove(w, batchSize, move) && move.Turned?
    ensures SettledGone(Moved(w, batchSize, move))
  {
    MoveEnabled(w, batchSize, move);
    var w', op := Moved(w, batchSize, move), Statement(w.loop, move.step, move.args);
    hide Conserved, M.Sound, M.Apply, Do, CanMove, LeasesUsed;
    forall c | Settled(w'.loop, c) ensures !M.Held(w'.world.rows, c.id, c.lease) {
      if Settled(w.loop, c) {
        if op.Some? { SettledStays(w, op.value, c); }
      } else {
        NewlySettled(w, batchSize, move.step, c);
        StatementEnds(w, move.step, move.args, c);
      }
    }
  }

  lemma LeasesStayUsed(w: Site, batchSize: nat, move: Move)
    requires CanMove(w, batchSize, move) && LeasesUsed(w)
    ensures LeasesUsed(Moved(w, batchSize, move))
  {
    if move.Turned? && move.step.Fill? {
      var w' := Moved(w, batchSize, move);
      forall c | c in w'.loop.claimed ensures c.lease in w'.world.used {}
    }
  }

  lemma MoveKeeps(w: Site, batchSize: nat, move: Move)
    requires SiteInv(w) && CanMove(w, batchSize, move)
    ensures SiteInv(Moved(w, batchSize, move))
  {
    LeasesStayUsed(w, batchSize, move);
    match move {
      case Table(op) =>
        M.StepSound(w.world, op);
        forall c | Settled(w.loop, c) ensures !M.Held(M.Step(w.world, op).rows, c.id, c.lease) {
          SettledStays(w, op, c);
        }
      case Turned(step, args) =>
        MoveEnabled(w, batchSize, move);
        StepConserves(w.loop, batchSize, step);
        TurnKeepsGone(w, batchSize, move);
        var op := Statement(w.loop, step, args);
        if op.Some? { M.StepSound(w.world, op.value); }
    }
  }

  ghost predicate MoveFollows(w: Site, batchSize: nat, move: Move, w': Site) {
    CanMove(w, batchSize, move) && LeasesUsed(w) && w' == Moved(w, batchSize, move)
  }

  ghost predicate IsHistory(prefetch: nat, batchSize: nat, sites: seq<Site>, moves: seq<Move>) {
    && |sites| == |moves| + 1 && sites[0].loop == Start(prefetch) && M.Sound(sites[0].world)
    && forall k :: 0 <= k < |moves| ==> MoveFollows(sites[k], batchSize, moves[k], sites[k + 1])
  }

  lemma {:induction false} HistoryKeeps(prefetch: nat, batchSize: nat, sites: seq<Site>,
                                        moves: seq<Move>, k: nat)
    requires IsHistory(prefetch, batchSize, sites, moves) && k < |sites|
    ensures SiteInv(sites[k])
  {
    if k > 0 {
      HistoryKeeps(prefetch, batchSize, sites, moves, k - 1);
      assert MoveFollows(sites[k - 1], batchSize, moves[k - 1], sites[k - 1 + 1]);
      MoveKeeps(sites[k - 1], batchSize, moves[k - 1]);
    } else {
      forall c ensures PlacedOnce(Start(prefetch), c) {}
    }
  }

  /** Over every history of the loop and everything else that runs on the table: a claimed message
      that was delivered, failed, dropped or released is no longer held under its lease, and no
      later statement under that lease changes anything. */
  lemma SettledClaimIsOver(prefetch: nat, batchSize: nat, sites: seq<Site>, moves: seq<Move>, k: nat,
                           c: Held, op: M.Op)
    requires IsHistory(prefetch, batchSize, sites, moves) && k < |sites| && Settled(sites[k].loop, c)
    requires op.Renew? || op.Deliver? || op.Fail? || op.Release? || op.DropClaimed?
    requires op.id == c.id && op.lease == c.lease
    ensures !M.Held(sites[k].world.rows, c.id, c.lease)
    ensures M.Apply(sites[k].world.rows, op) == sites[k].world.rows
  {
    HistoryKeeps(prefetch, batchSize, sites, moves, k);
    assert Settled(sites[k].loop, c);
  }

  // ----- which statement settles a claim ---------------------------------------------------

  /** The statement that a fate stands for, under the claim's own id and lease. */
  predicate Settles(op: M.Op, c: Held, fate: Fate) {
    match fate
    case Delivered => op == M.Deliver(c.id, c.lease)
    case Dropped => op == M.DropClaimed(c.id, c.lease)
    case Failed => op.Fail? && op.id == c.id && op.lease == c.lease
    case Released => op.Release? && op.id == c.id && op.lease == c.lease
    case LeftToExpire(_) => false
  }

  /** The message shows for good what was done to it. */
  predicate Shows(rows: M.Rows, c: Held, fate: Fate) {
    && (fate == Delivered ==> c.id in rows && rows[c.id].status == M.Status.Delivered)
    && (fate == Dropped ==> c.id in rows && rows[c.id].status == M.Status.Dropped)
  }

  lemma NewStatement(l: Loop, batchSize: nat, step: Step, args: Args, c: Held)
    requires Enabled(l, batchSize, step) && c !in l.fates && Settled(Do(l, batchSize, step), c)
    ensures var op := Statement(l, step, args);
      op.Some? && Settles(op.value, c, Do(l, batchSize, step).fates[c])
  {
  }

  /** And the loop issues no other statement about a claim: whatever it issues besides claiming
      settles one that had no fate yet. */
  lemma StatementSettles(l: Loop, batchSize: nat, step: Step, args: Args) returns (c: Held)
    requires Conserved(l) && Enabled(l, batchSize, step) && !step.Fill? && Statement(l, step, args).Some?
    ensures c !in l.fates && Settled(Do(l, batchSize, step), c)
    ensures Settles(Statement(l, step, args).value, c, Do(l, batchSize, step).fates[c])
  {
    c := if step.Finish? then step.task else l.ready[0];
    assert PlacedOnce(l, c);
  }

  lemma SettlingShows(rows: M.Rows, op: M.Op, c: Held, fate: Fate)
    requires Settles(op, c, fate) && M.Held(rows, c.id, c.lease)
    ensures Shows(M.Apply(rows, op), c, fate)
  {
  }

  lemma ShowsOn(rows: M.Rows, op: M.Op, c: Held, fate: Fate)
    requires Shows(rows, c, fate)
    ensures Shows(M.Apply(rows, op), c, fate)
  {
    if fate.Delivered? || fate.Dropped? { M.RowsPersist(rows, op, c.id); }
  }

  lemma MoveShows(w: Site, batchSize: nat, move: Move, c: Held, fate: Fate)
    requires CanMove(w, batchSize, move) && LeasesUsed(w) && Shows(w.world.rows, c, fate)
    ensures Shows(Moved(w, batchSize, move).world.rows, c, fate)
  {
    hide CanMove, LeasesUsed, M.Apply, Do, Shows;
    match move {
      case Table(op) => ShowsOn(w.world.rows, op, c, fate);
      case Turned(step, args) =>
        MoveEnabled(w, batchSize, move);
        var op := Statement(w.loop, step, args);
        if op.Some? { ShowsOn(w.world.rows, op.value, c, fate); }
    }
  }

  /** Over every history, a settled claim was settled by exactly the statement its fate stands for,
      issued by the loop at the step that gave it the fate; and if the claim was still held then, a
      message delivered or dropped shows so ever after. */
  lemma {:induction false} SettledByItsStatement(prefetch: nat, batchSize: nat, sites: seq<Site>,
                                                 moves: seq<Move>, k: nat, c: Held) returns (j: nat, op: M.Op)
    requires IsHistory(prefetch, batchSize, sites, moves) && k < |sites| && Settled(sites[k].loop, c)
    ensures j < k && moves[j].Turned? && sites[j + 1].world == M.Step(sites[j].world, op)
    ensures c !in sites[j].loop.fates && c in sites[j + 1].loop.fates
    ensures Settles(op, c, sites[k].loop.fates[c])
    ensures M.Held(sites[j].world.rows, c.id, c.lease) ==> Shows(sites[k].world.rows, c, sites[k].loop.fates[c])
  {
    hide Conserved, M.Sound, M.Apply, Do, CanMove, LeasesUsed, Shows, Settles;
    assert k > 0;
    var w, move := sites[k - 1], moves[k - 1];
    HistoryKeeps(prefetch, batchSize, sites, moves, k - 1);
    assert MoveFollows(w, batchSize, move, sites[k - 1 + 1]);
    if move.Turned? { MoveEnabled(w, batchSize, move); }
    if c in w.loop.fates {
      if move.Turned? { FateStays(w.loop, batchSize, move.step, c); }
      j, op := SettledByItsStatement(prefetch, batchSize, sites, moves, k - 1, c);
      if M.Held(sites[j].world.rows, c.id, c.lease) { MoveShows(w, batchSize, move, c, w.loop.fates[c]); }
    } else {
      NewStatement(w.loop, batchSize, move.step, move.args, c);
      j, op := k - 1, Statement(w.loop, move.step, move.args).value;
      if M.Held(w.world.rows, c.id, c.lease) { SettlingShows(w.world.rows, op, c, sites[k].loop.fates[c]); }
    }
  }

  // ----- the loop itself -------------------------------------------------------------------

  /** What a claim limited to `limit` messages takes of those available. */
  function Taken(available: seq<Held>, limit: nat): seq<Held> {
    if |available| < C.Clamp(limit) then available else available[..C.Clamp(limit)]
  }

  /** Released, or left to its lease because the call failed. */
  predicate GivenBack(fates: map<Held, Fate>, c: Held, ok: bool) {
    c in fates && (ok ==> fates[c] == Released) && (!ok ==> fates[c] == LeftToExpire(DatabaseError))
  }

  /** Where one turn leaves the front message: released if its lease is half used up; in a task if it
      was sent and is to be acknowledged; delivered at once if sent on an ephemeral topic; dropped or
      failed if no stream took it; left to its lease if the call for it failed. The loop goes on
      unless no stream took the message and its own is closed. */
  predicate TurnEnds(t: Turn, l: Loop, m: Loop) {
    && l.ready != [] && m.ready == l.ready[1..] && m.claimed == l.claimed
    && m.capacity == l.capacity && m.cancelled == l.cancelled
    && (m.running <==> l.running && (t.stale || t.sent > 0 || !t.closed))
    && var c := l.ready[0];
       if !t.stale && !t.ephemeral && t.sent > 0 then
         m.tasks == l.tasks + {c} && m.fates == l.fates && m.free == l.free
       else
         && m.tasks == l.tasks && m.free == l.free + 1 && c in m.fates && m.fates - {c} == l.fates - {c}
         && (m.fates[c] == Released <==> t.callOk && t.stale)
         && (m.fates[c] == Delivered <==> t.callOk && !t.stale && t.ephemeral && t.sent > 0)
         && (m.fates[c] == Dropped <==> t.callOk && !t.stale && t.ephemeral && t.sent == 0)
         && (m.fates[c] == Failed <==> t.callOk && !t.stale && !t.ephemeral && t.sent == 0)
         && (m.fates[c] == LeftToExpire(DatabaseError) <==> !t.callOk)
  }

  lemma TurnMeans(l: Loop, batchSize: nat, t: Turn)
    requires Enabled(l, batchSize, Dispatch(t))
    ensures TurnEnds(t, l, Do(l, batchSize, Dispatch(t)))
  {
  }

  /** The way out for everything buffered: each message is released once, in order, and its permit
      is back. */
  lemma {:induction false} ReturnMeans(l: Loop, oks: seq<bool>)
    requires Conserved(l) && |l.ready| <= |oks|
    ensures var m := ReturnAll(l, oks);
      && m.ready == [] && m.free == l.free + |l.ready| && m.tasks == l.tasks && m.claimed == l.claimed
      && (forall k :: 0 <= k < |l.ready| ==> GivenBack(m.fates, l.ready[k], oks[k]))
      && (forall c :: c in l.fates ==> c in m.fates && m.fates[c] == l.fates[c])
    decreases |l.ready|
  {
    if l.ready != [] {
      var next := Leave(l, Called(Released, oks[0]));
      LeaveConserves(l, Called(Released, oks[0]));
      ReturnMeans(next, oks[1..]);
      var m := ReturnAll(l, oks);
      assert PlacedOnce(l, l.ready[0]);
      hide Conserved, ReturnAll;
      forall k | 0 <= k < |l.ready| ensures GivenBack(m.fates, l.ready[k], oks[k]) {
        if k > 0 {
          assert l.ready[k] == next.ready[k - 1] && oks[k] == oks[1..][k - 1];
          assert GivenBack(m.fates, next.ready[k - 1], oks[1..][k - 1]);
        } else {
          assert next.fates[l.ready[0]] == Called(Released, oks[0]);
        }
      }
    }
  }

  /** The buffer emptied by releasing each message in turn; `oks` tells which calls succeed. */
  ghost function ReturnAll(l: Loop, oks: seq<bool>): Loop
    requires |l.ready| <= |oks|
    decreases |l.ready|
  {
    if l.ready == [] then l else ReturnAll(Leave(l, Called(Released, oks[0])), oks[1..])
  }

  class Subscription {
    const capacity: nat
    const batchSize: nat
    var free: nat
    var ready: seq<Held>
    var tasks: set<Held>
    var fates: map<Held, Fate>
    ghost var claimed: set<Held>
    var running: bool
    var cancelled: bool

    ghost function View(): Loop reads this {
      Loop(capacity, free, ready, tasks, fates, claimed, running, cancelled)
    }

    constructor (prefetch: nat, batchSize: nat)
      ensures View() == Start(prefetch) && Conserved(View()) && this.batchSize == batchSize
      ensures free == capacity == (if prefetch == 0 then 1 else prefetch) && running && !cancelled
      ensures ready == [] && tasks == {} && fates == map[] && claimed == {}
    {
      capacity, free := Capacity(prefetch), Capacity(prefetch);
      this.batchSize := batchSize;
      ready, tasks, fates, running, cancelled := [], {}, map[], true, false;
      claimed := {};
      new;
      forall c ensures PlacedOnce(View(), c) {}
    }

    /** One permit is awaited; more are taken while there are any, up to the batch size. */
    method Reserve() returns (reserved: nat)
      requires free >= 1
      modifies this`free
      ensures 1 <= reserved <= C.Clamp(batchSize) && free == old(free) - reserved
      ensures reserved == C.Clamp(batchSize) || free == 0
    {
      reserved := 1;
      free := free - 1;
      while reserved < C.Clamp(batchSize)
        invariant 1 <= reserved <= C.Clamp(batchSize) && free == old(free) - reserved
      {
        if free == 0 { break; }
        reserved, free := reserved + 1, free - 1;
      }
    }

    /** Refills the empty buffer from what the claim finds. A failed claim finds nothing. */
    method Refill(available: seq<Held>) returns (reserved: nat)
      requires Conserved(View()) && running && ready == [] && free >= 1 && Fresh(View(), available)
      modifies this
      ensures Enabled(old(View()), batchSize, Fill(reserved, Taken(available, reserved)))
      ensures View() == Do(old(View()), batchSize, Fill(reserved, Taken(available, reserved)))
      ensures ready == Taken(available, reserved) && Conserved(View())
    {
      ghost var before := View();
      reserved := Reserve();
      var got := Taken(available, reserved);
      var i, permits := 0, reserved;
      while i < |got| && permits > 0
        modifies this`ready
        invariant i <= |got| && permits == reserved - i >= 0 && ready == got[..i]
      {
        ready := ready + [got[i]];
        i, permits := i + 1, permits - 1;
      }
      free := free + permits;
      claimed := claimed + set c | c in got;
      PairingLosesNone(before, batchSize, reserved, got);
      StepConserves(before, batchSize, Fill(reserved, got));
    }

    /** One turn on the front of the buffer. */
    method TakeTurn(t: Turn)
      requires Conserved(View()) && running && ready != []
      modifies this
      ensures View() == Do(old(View()), batchSize, Dispatch(t)) && Conserved(View())
      ensures TurnEnds(t, old(View()), View())
    {
      hide Conserved, TurnEnds;
      StepConserves(View(), batchSize, Dispatch(t));
      TurnMeans(View(), batchSize, t);
      var message := ready[0];
      ready := ready[1..];
      if t.stale {
        fates := fates[message := Called(Released, t.callOk)];
        free := free + 1;
        return;
      }
      if t.ephemeral && t.sent > 0 {
        fates := fates[message := Called(Delivered, t.callOk)];
        free := free + 1;
        return;
      }
      if t.sent == 0 {
        fates := fates[message := Called(if t.ephemeral then Dropped else Failed, t.callOk)];
        free := free + 1;
        if t.closed { running := false; }
        return;
      }
      tasks := tasks + {message};
    }

    /** The end of a delivery task. */
    method FinishTask(task: Held, allOk: bool, callOk: bool)
      requires Conserved(View()) && task in tasks
      modifies this
      ensures View() == Do(old(View()), batchSize, Finish(task, allOk, callOk)) && Conserved(View())
      ensures task in fates && fates - {task} == old(fates) - {task}
      ensures fates[task] == Delivered <==> !cancelled && callOk && allOk
      ensures fates[task] == Failed <==> !cancelled && callOk && !allOk
      ensures fates[task] == LeftToExpire(Shutdown) <==> cancelled
      ensures fates[task] == LeftToExpire(DatabaseError) <==> !cancelled && !callOk
      ensures tasks == old(tasks) - {task} && free == old(free) + 1
      ensures ready == old(ready) && running == old(running) && cancelled == old(cancelled) && claimed == old(claimed)
    {
      StepConserves(View(), batchSize, Finish(task, allOk, callOk));
      if cancelled {
        fates := fates[task := LeftToExpire(Shutdown)];
      } else {
        fates := fates[task := Called(if allOk then Delivered else Failed, callOk)];
      }
      tasks, free := tasks - {task}, free + 1;
    }

    /** The way out: what is still buffered is released, one call each. */
    method ReturnBuffered(oks: seq<bool>)
      requires Conserved(View()) && !running && |ready| <= |oks|
      modifies this
      ensures View() == ReturnAll(old(View()), oks) && Conserved(View())
      ensures ready == [] && free == old(free) + |old(ready)| && tasks == old(tasks) && claimed == old(claimed)
      ensures forall k :: 0 <= k < |old(ready)| ==> GivenBack(fates, old(ready)[k], oks[k])
      ensures forall c :: c in old(fates) ==> c in fates && fates[c] == old(fates)[c]
    {
      hide Conserved, GivenBack;
      ReturnMeans(View(), oks);
      ghost var all := ready;
      var i := 0;
      while ready != []
        invariant i + |ready| == |all| <= |oks|
        invariant Conserved(View()) && !running
        invariant ReturnAll(View(), oks[i..]) == ReturnAll(old(View()), oks)
        decreases |ready|
      {
        StepConserves(View(), batchSize, Return(oks[i]));
        assert oks[i..][1..] == oks[i + 1..];
        fates := fates[ready[0] := Called(Released, oks[i])];
        ready, free := ready[1..], free + 1;
        i := i + 1;
      }
    }
  }
}
