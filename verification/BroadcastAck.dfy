/** Acknowledgement of a broadcast message: the registry of awaited acknowledgements
    (`InflightAcks` in src/subscribers.rs) and the delivery tasks of src/delivery.rs, any number
    of them at once, against subscribers that answer, stay silent or answer late. */
module BroadcastAck {
  import opened Wrappers
  import opened Collections
  import M = MessageStore

  // ----- the registry ----------------------------------------------------------------------

  class InflightAcks {
    /** The message each registered lease waits for. */
    var pending: map<string, string>

    constructor ()
      ensures pending == map[]
    {
      pending := map[];
    }

    method Register(message: string, lease: string)
      modifies this
      ensures pending == old(pending)[lease := message]
    {
      pending := pending[lease := message];
    }

    /** An answer is taken once, and only under the lease and the message it was sent with. */
    method Complete(message: string, lease: string) returns (taken: bool)
      modifies this
      ensures taken <==> lease in old(pending) && old(pending)[lease] == message
      ensures pending == if taken then old(pending) - {lease} else old(pending)
    {
      if lease in pending && pending[lease] == message {
        pending := pending - {lease};
        return true;
      }
      return false;
    }

    method Cancel(lease: string)
      modifies this
      ensures pending == old(pending) - {lease}
    {
      pending := pending - {lease};
    }

    /** The sends to a message's targets, each under a lease of its own; a send that is not
        accepted in time takes its registration back. */
    method SendAll(message: string, drawn: seq<string>, accepted: seq<bool>) returns (leases: seq<string>)
      requires |drawn| == |accepted| && Distinct(drawn)
      requires forall i :: 0 <= i < |drawn| ==> drawn[i] !in pending
      modifies this
      ensures leases == Accepted(drawn, accepted)
      ensures pending == Awaited(old(pending), leases, message)
    {
      leases := [];
      for i := 0 to |drawn|
        invariant leases == Accepted(drawn[..i], accepted[..i])
        invariant pending == Awaited(old(pending), leases, message)
        invariant forall k :: i <= k < |drawn| ==> drawn[k] !in pending
      {
        AcceptedStep(drawn, accepted, i);
        Register(message, drawn[i]);
        if accepted[i] {
          AwaitedStep(old(pending), leases, message, drawn[i]);
          leases := leases + [drawn[i]];
        } else {
          Cancel(drawn[i]);
        }
      }
      assert leases == Accepted(drawn[..|drawn|], accepted[..|drawn|]);
      assert drawn[..|drawn|] == drawn && accepted[..|drawn|] == accepted;
    }

    method CancelAll(leases: seq<string>)
      modifies this
      ensures pending == old(pending) - set l | l in leases
    {
      for i := 0 to |leases|
        invariant pending == old(pending) - set l | l in leases[..i]
      {
        Cancel(leases[i]);
        assert leases[..i + 1] == leases[..i] + [leases[i]];
      }
      assert leases[..|leases|] == leases;
    }
  }

  /** The leases whose send was accepted, in order. */
  function Accepted(drawn: seq<string>, accepted: seq<bool>): seq<string>
    requires |drawn| == |accepted|
  {
    if drawn == [] then []
    else
      var n := |drawn| - 1;
      Accepted(drawn[..n], accepted[..n]) + if accepted[n] then [drawn[n]] else []
  }

  lemma AcceptedStep(drawn: seq<string>, accepted: seq<bool>, i: nat)
    requires |drawn| == |accepted| && i < |drawn|
    ensures Accepted(drawn[..i + 1], accepted[..i + 1])
            == Accepted(drawn[..i], accepted[..i]) + if accepted[i] then [drawn[i]] else []
  {
    assert drawn[..i + 1][..i] == drawn[..i] && accepted[..i + 1][..i] == accepted[..i];
  }

  /** The registry with the leases of a message added. */
  function Awaited(pending: map<string, string>, leases: seq<string>, message: string): map<string, string> {
    pending + map l | l in leases :: message
  }

  lemma AwaitedStep(pending: map<string, string>, leases: seq<string>, message: string, lease: string)
    ensures Awaited(pending, leases + [lease], message) == Awaited(pending, leases, message)[lease := message]
  {
  }

  // ----- one task's waiting ----------------------------------------------------------------

  datatype Outcome = Success | Nack | Silent

  datatype Call = CallDelivered | CallFailed | CallDropped | NoCall

  /** Once the broker is shutting down it stays so. */
  predicate Monotone(cancelled: seq<bool>) {
    forall i, j :: 0 <= i < j < |cancelled| ==> (cancelled[i] ==> cancelled[j])
  }

  /** The wait of a delivery task, in turn for each stream: what came of each wait, and whether
      shutdown was seen after it; the last entry of `cancelled` is the look before the call.
      Delivered is recorded exactly when every wait succeeded and no shutdown began. */
  method AwaitAcks(outcomes: seq<Outcome>, cancelled: seq<bool>) returns (call: Call)
    requires |cancelled| == |outcomes| + 1 && Monotone(cancelled)
    ensures call == NoCall <==> cancelled[|outcomes|]
    ensures call == CallDelivered <==>
            !cancelled[|outcomes|] && forall i :: 0 <= i < |outcomes| ==> outcomes[i] == Success
    ensures call != CallDropped
  {
    var allOk := true;
    var i := 0;
    while i < |outcomes|
      invariant i <= |outcomes|
      invariant allOk <==> forall k :: 0 <= k < i ==> outcomes[k] == Success
    {
      if outcomes[i] != Success { allOk := false; }
      if cancelled[i] { return NoCall; }
      i := i + 1;
    }
    if cancelled[|outcomes|] { return NoCall; }
    call := if allOk then CallDelivered else CallFailed;
  }

  // ----- all tasks at once -----------------------------------------------------------------

  datatype Phase =
    | Sending(pending: Option<string>)
    | Awaiting(next: nat, allOk: bool)
    | Closing(next: nat, allOk: bool)
    | Ended(call: Call)

  /** The delivery of one claimed message. `leases` are those of the streams that took it. */
  datatype Task = Task(message: string, claim: string, ephemeral: bool, leases: seq<string>, phase: Phase)

  datatype Decision = Decision(message: string, success: bool)

  /** `registry` is the awaited leases; `decisions` what was answered; `owner` who drew each
      lease; `sent` records every accepted send. */
  datatype State = State(tasks: map<nat, Task>, registry: map<string, string>,
                         decisions: map<string, Decision>, owner: map<string, nat>,
                         sent: set<(nat, string)>, cancelled: bool)

  const START := State(map[], map[], map[], map[], {}, false)

  datatype Step =
    | Begin(t: nat, message: string, claim: string, ephemeral: bool)
    | Register(t: nat, lease: string)
    | Sent(t: nat)
    | NotSent(t: nat)
    | Targeted(t: nat)
    | Wait(t: nat, outcome: Outcome)
    | Waited(t: nat)
    | Unregister(t: nat)
    | Decide(t: nat)
    | Answer(message: string, lease: string, success: bool)
    | Shutdown

  predicate Enabled(s: State, step: Step) {
    match step
    case Begin(t, _, _, _) => t !in s.tasks
    case Register(t, lease) =>
      t in s.tasks && s.tasks[t].phase == Sending(None) && lease !in s.owner
    case Sent(t) => t in s.tasks && s.tasks[t].phase.Sending? && s.tasks[t].phase.pending.Some?
    case NotSent(t) => t in s.tasks && s.tasks[t].phase.Sending? && s.tasks[t].phase.pending.Some?
    case Targeted(t) => t in s.tasks && s.tasks[t].phase == Sending(None)
    case Wait(t, outcome) =>
      && t in s.tasks && s.tasks[t].phase.Awaiting? && s.tasks[t].phase.next < |s.tasks[t].leases|
      && match outcome {
           case Success => Decided(s, s.tasks[t].leases[s.tasks[t].phase.next], true)
           case Nack => Decided(s, s.tasks[t].leases[s.tasks[t].phase.next], false)
           case Silent => true  // timed out, or shutdown was noticed first
         }
    case Waited(t) =>
      t in s.tasks && s.tasks[t].phase.Awaiting? && s.tasks[t].phase.next == |s.tasks[t].leases|
    case Unregister(t) =>
      t in s.tasks && s.tasks[t].phase.Closing? && s.tasks[t].phase.next < |s.tasks[t].leases|
    case Decide(t) =>
      t in s.tasks && s.tasks[t].phase.Closing? && s.tasks[t].phase.next == |s.tasks[t].leases|
    case Answer(_, _, _) => true
    case Shutdown => true
  }

  predicate Decided(s: State, lease: string, success: bool) {
    lease in s.decisions && s.decisions[lease].success == success
  }

  function Set(s: State, t: nat, task: Task): State { s.(tasks := s.tasks[t := task]) }

  /** What follows the sends: an ephemeral message is done, one nobody took is given up, and any
      other is waited for. */
  function AfterTargets(task: Task): Phase {
    if task.ephemeral then (if task.leases == [] then Ended(CallDropped) else Closing(0, true))
    else if task.leases == [] then Ended(CallFailed) else Awaiting(0, true)
  }

  function Verdict(task: Task, allOk: bool, cancelled: bool): Call {
    if task.ephemeral then CallDelivered
    else if cancelled then NoCall
    else if allOk then CallDelivered else CallFailed
  }

  function Do(s: State, step: Step): State
    requires Enabled(s, step)
  {
    match step
    case Begin(t, message, claim, ephemeral) =>
      Set(s, t, Task(message, claim, ephemeral, [], Sending(None)))
    case Register(t, lease) =>
      Set(s, t, s.tasks[t].(phase := Sending(Some(lease))))
        .(registry := s.registry[lease := s.tasks[t].message], owner := s.owner[lease := t])
    case Sent(t) =>
      var lease := s.tasks[t].phase.pending.value;
      Set(s, t, s.tasks[t].(leases := s.tasks[t].leases + [lease], phase := Sending(None)))
        .(sent := s.sent + {(t, lease)})
    case NotSent(t) =>
      Set(s, t, s.tasks[t].(phase := Sending(None)))
        .(registry := s.registry - {s.tasks[t].phase.pending.value})
    case Targeted(t) => Set(s, t, s.tasks[t].(phase := AfterTargets(s.tasks[t])))
    case Wait(t, outcome) =>
      var allOk := s.tasks[t].phase.allOk && outcome == Success;
      Set(s, t, s.tasks[t].(phase := if s.cancelled then Closing(0, allOk)
                                     else Awaiting(s.tasks[t].phase.next + 1, allOk)))
    case Waited(t) => Set(s, t, s.tasks[t].(phase := Closing(0, s.tasks[t].phase.allOk)))
    case Unregister(t) =>
      Set(s, t, s.tasks[t].(phase := s.tasks[t].phase.(next := s.tasks[t].phase.next + 1)))
        .(registry := s.registry - {s.tasks[t].leases[s.tasks[t].phase.next]})
    case Decide(t) =>
      Set(s, t, s.tasks[t].(phase := Ended(Verdict(s.tasks[t], s.tasks[t].phase.allOk, s.cancelled))))
    case Answer(message, lease, success) =>
      if lease in s.registry && s.registry[lease] == message
      then s.(registry := s.registry - {lease},
              decisions := s.decisions[lease := Decision(message, success)])
      else s
    case Shutdown => s.(cancelled := true)
  }

  // ----- the invariant ---------------------------------------------------------------------

  predicate Acked(s: State, task: Task, lease: string) {
    lease in s.decisions && s.decisions[lease] == Decision(task.message, true)
  }

  predicate AckedUpto(s: State, task: Task, n: nat) {
    forall i :: 0 <= i < n && i < |task.leases| ==> Acked(s, task, task.leases[i])
  }

  predicate Owned(s: State, t: nat, lease: string) { lease in s.owner && s.owner[lease] == t }

  predicate PhaseOk(s: State, task: Task) {
    match task.phase
    case Sending(_) => true
    case Awaiting(next, allOk) => !task.ephemeral && (allOk ==> AckedUpto(s, task, next))
    case Closing(next, allOk) =>
      allOk && !task.ephemeral && !s.cancelled ==> AckedUpto(s, task, |task.leases|)
    case Ended(call) =>
      call == CallDelivered && !task.ephemeral ==> AckedUpto(s, task, |task.leases|) && task.leases != []
  }

  predicate LeasesOwned(s: State, t: nat, task: Task) {
    && (forall i :: 0 <= i < |task.leases| ==> Owned(s, t, task.leases[i]))
    && (task.phase.Sending? && task.phase.pending.Some? ==> Owned(s, t, task.phase.pending.value))
  }

  predicate NonEmpty(task: Task) {
    (task.phase.Awaiting? || task.phase.Closing?) ==> task.leases != []
  }

  predicate TaskOk(s: State, t: nat)
    requires t in s.tasks
  {
    LeasesOwned(s, t, s.tasks[t]) && PhaseOk(s, s.tasks[t]) && NonEmpty(s.tasks[t])
  }

  /** The leases a task still has registered, or may have. */
  predicate MayWait(task: Task, lease: string) {
    match task.phase
    case Sending(pending) => pending == Some(lease) || lease in task.leases
    case Awaiting(_, _) => lease in task.leases
    case Closing(next, _) => next <= |task.leases| && lease in task.leases[next..]
    case Ended(_) => false
  }

  predicate OwnerKnown(s: State, lease: string) { lease in s.owner && s.owner[lease] in s.tasks }

  predicate RegisteredOk(s: State, lease: string) {
    && OwnerKnown(s, lease) && lease !in s.decisions && lease in s.registry
    && s.registry[lease] == s.tasks[s.owner[lease]].message
    && MayWait(s.tasks[s.owner[lease]], lease)
  }

  predicate DecidedOk(s: State, lease: string) {
    && OwnerKnown(s, lease) && lease in s.decisions
    && s.decisions[lease].message == s.tasks[s.owner[lease]].message
  }

  predicate SentOk(s: State, t: nat, lease: string) { t in s.tasks && lease in s.tasks[t].leases }

  ghost predicate Inv(s: State) {
    && (forall t :: t in s.tasks ==> TaskOk(s, t))
    && (forall l :: l in s.registry ==> RegisteredOk(s, l))
    && (forall l :: l in s.owner ==> OwnerKnown(s, l))
    && (forall l :: l in s.decisions ==> DecidedOk(s, l))
    && (forall p :: p in s.sent ==> SentOk(s, p.0, p.1))
  }

  // ----- every step keeps it ---------------------------------------------------------------

  /** What no step undoes: owners, answers and a shutdown in progress; and a task keeps its
      message, its claim and the leases it has. */
  ghost predicate Grows(s: State, s': State) {
    && (forall l :: l in s.owner ==> l in s'.owner && s'.owner[l] == s.owner[l])
    && (forall l :: l in s.decisions ==> l in s'.decisions && s'.decisions[l] == s.decisions[l])
    && (s.cancelled ==> s'.cancelled)
    && (forall t :: t in s.tasks ==> t in s'.tasks && SameTask(s.tasks[t], s'.tasks[t]))
  }

  predicate SameTask(a: Task, b: Task) {
    && a.message == b.message && a.claim == b.claim && a.ephemeral == b.ephemeral
    && a.leases <= b.leases
  }

  lemma TaskGrows(s: State, step: Step, t: nat)
    requires Enabled(s, step) && t in s.tasks
    ensures t in Do(s, step).tasks && SameTask(s.tasks[t], Do(s, step).tasks[t])
  {
  }

  lemma AnswersGrow(s: State, step: Step, lease: string)
    requires Inv(s) && Enabled(s, step) && lease in s.decisions
    ensures lease in Do(s, step).decisions && Do(s, step).decisions[lease] == s.decisions[lease]
  {
    assert step.Answer? && lease in s.registry ==> RegisteredOk(s, lease);
  }

  lemma StepGrows(s: State, step: Step)
    requires Inv(s) && Enabled(s, step)
    ensures Grows(s, Do(s, step))
  {
    hide Inv, SameTask;
    forall t | t in s.tasks
      ensures t in Do(s, step).tasks && SameTask(s.tasks[t], Do(s, step).tasks[t])
    {
      TaskGrows(s, step, t);
    }
    forall l | l in s.decisions
      ensures l in Do(s, step).decisions && Do(s, step).decisions[l] == s.decisions[l]
    {
      AnswersGrow(s, step, l);
    }
  }

  predicate Acts(step: Step, t: nat) {
    match step
    case Answer(_, _, _) => false
    case Shutdown => false
    case _ => step.t == t
  }

  /** A task that does not act stays in order. */
  lemma OthersKeep(s: State, s': State, t: nat)
    requires Grows(s, s') && t in s.tasks && s'.tasks[t] == s.tasks[t] && TaskOk(s, t)
    ensures TaskOk(s', t)
  {
  }

  lemma WaitKeeps(s: State, step: Step)
    requires Inv(s) && Enabled(s, step) && step.Wait?
    ensures TaskOk(Do(s, step), step.t)
  {
    var t := step.t;
    var task := s.tasks[t];
    var task' := Do(s, step).tasks[t];
    assert TaskOk(s, t);
    var lease := task.leases[task.phase.next];
    assert Owned(s, t, lease);
    if task.phase.allOk && step.outcome == Success {
      assert DecidedOk(s, lease);
      assert AckedUpto(s, task', task.phase.next + 1);
    }
  }

  lemma ActorKeeps(s: State, step: Step, t: nat)
    requires Inv(s) && Enabled(s, step) && Acts(step, t)
    ensures TaskOk(Do(s, step), t)
  {
    if t in s.tasks { assert TaskOk(s, t); }
    if step.Wait? { WaitKeeps(s, step); }
  }

  lemma TasksKeep(s: State, step: Step)
    requires Inv(s) && Enabled(s, step)
    ensures var s' := Do(s, step); forall t :: t in s'.tasks ==> TaskOk(s', t)
  {
    hide Inv, TaskOk, Grows;
    var s' := Do(s, step);
    StepGrows(s, step);
    forall t | t in s'.tasks ensures TaskOk(s', t) {
      if Acts(step, t) {
        ActorKeeps(s, step, t);
      } else {
        InvTask(s, t);
        OthersKeep(s, s', t);
      }
    }
  }

  lemma InvTask(s: State, t: nat)
    requires Inv(s) && t in s.tasks
    ensures TaskOk(s, t)
  {
  }

  /** A task that acts keeps its claim on every registered lease it leaves registered. */
  lemma StillWaits(s: State, step: Step, t: nat, lease: string)
    requires Enabled(s, step) && t in s.tasks && MayWait(s.tasks[t], lease)
    requires lease in Do(s, step).registry && NonEmpty(s.tasks[t])
    ensures MayWait(Do(s, step).tasks[t], lease)
  {
    if step.Unregister? && step.t == t {
      var task := s.tasks[t];
      var next := task.phase.next;
      assert task.leases[next..] == [task.leases[next]] + task.leases[next + 1..];
    }
  }

  lemma RegistryKeeps(s: State, step: Step, lease: string)
    requires Inv(s) && Enabled(s, step) && lease in Do(s, step).registry
    ensures RegisteredOk(Do(s, step), lease)
  {
    hide MayWait, PhaseOk, LeasesOwned;
    if lease in s.registry {
      assert RegisteredOk(s, lease);
      var t := s.owner[lease];
      assert TaskOk(s, t);
      TaskGrows(s, step, t);
      StillWaits(s, step, t, lease);
    } else {
      NewlyRegistered(s, step);
    }
  }

  lemma NewlyRegistered(s: State, step: Step)
    requires Inv(s) && Enabled(s, step) && step.Register?
    ensures RegisteredOk(Do(s, step), step.lease)
  {
  }

  lemma OwnerKeeps(s: State, step: Step, lease: string)
    requires Inv(s) && Enabled(s, step) && lease in Do(s, step).owner
    ensures OwnerKnown(Do(s, step), lease)
  {
    assert lease in s.owner ==> OwnerKnown(s, lease);
  }

  lemma DecisionKeeps(s: State, step: Step, lease: string)
    requires Inv(s) && Enabled(s, step) && lease in Do(s, step).decisions
    ensures DecidedOk(Do(s, step), lease)
  {
    if lease in s.decisions {
      assert DecidedOk(s, lease);
      TaskGrows(s, step, s.owner[lease]);
      AnswersGrow(s, step, lease);
    } else {
      assert RegisteredOk(s, lease);
    }
  }

  lemma SentKeeps(s: State, step: Step, t: nat, lease: string)
    requires Inv(s) && Enabled(s, step) && (t, lease) in Do(s, step).sent
    ensures SentOk(Do(s, step), t, lease)
  {
    if (t, lease) in s.sent {
      assert SentOk(s, (t, lease).0, (t, lease).1);
      TaskGrows(s, step, t);
    }
  }

  lemma RecordsKeep(s: State, step: Step)
    requires Inv(s) && Enabled(s, step)
    ensures var s' := Do(s, step);
      && (forall l :: l in s'.owner ==> OwnerKnown(s', l))
      && (forall l :: l in s'.decisions ==> DecidedOk(s', l))
      && (forall p :: p in s'.sent ==> SentOk(s', p.0, p.1))
  {
    hide Inv, OwnerKnown, DecidedOk, SentOk, Do;
    var s' := Do(s, step);
    forall l | l in s'.owner ensures OwnerKnown(s', l) { OwnerKeeps(s, step, l); }
    forall l | l in s'.decisions ensures DecidedOk(s', l) { DecisionKeeps(s, step, l); }
    forall p | p in s'.sent ensures SentOk(s', p.0, p.1) { SentKeeps(s, step, p.0, p.1); }
  }

  lemma StepKeeps(s: State, step: Step)
    requires Inv(s) && Enabled(s, step)
    ensures Inv(Do(s, step))
  {
    TasksKeep(s, step);
    forall l | l in Do(s, step).registry ensures RegisteredOk(Do(s, step), l) {
      RegistryKeeps(s, step, l);
    }
    RecordsKeep(s, step);
  }

  // ----- every run -------------------------------------------------------------------------

  ghost predicate Follows(s: State, step: Step, s': State) {
    Enabled(s, step) && s' == Do(s, step)
  }

  ghost predicate IsRun(states: seq<State>, steps: seq<Step>) {
    && |states| == |steps| + 1 && states[0] == START
    && forall k :: 0 <= k < |steps| ==> Follows(states[k], steps[k], states[k + 1])
  }

  lemma {:induction false} RunKeeps(states: seq<State>, steps: seq<Step>, k: nat)
    requires IsRun(states, steps) && k < |states|
    ensures Inv(states[k])
  {
    if k > 0 {
      RunKeeps(states, steps, k - 1);
      assert Follows(states[k - 1], steps[k - 1], states[k - 1 + 1]);
      StepKeeps(states[k - 1], steps[k - 1]);
    }
  }

  /** In every run, when a task on a persistent topic calls delivered, every stream the message
      was sent on answered success under the lease drawn for that stream alone. */
  lemma DeliveredMeansAcked(states: seq<State>, steps: seq<Step>, k: nat, t: nat, lease: string)
    requires IsRun(states, steps) && k < |states|
    requires t in states[k].tasks && states[k].tasks[t].phase == Ended(CallDelivered)
    requires !states[k].tasks[t].ephemeral
    ensures var s := states[k]; var task := s.tasks[t];
      && task.leases != []
      && ((t, lease) in s.sent ==> Acked(s, task, lease) && Owned(s, t, lease))
  {
    RunKeeps(states, steps, k);
    InvDelivered(states[k], t, lease);
  }

  lemma InvDelivered(s: State, t: nat, lease: string)
    requires Inv(s) && t in s.tasks && s.tasks[t].phase == Ended(CallDelivered) && !s.tasks[t].ephemeral
    ensures s.tasks[t].leases != []
    ensures (t, lease) in s.sent ==> Acked(s, s.tasks[t], lease) && Owned(s, t, lease)
  {
    assert TaskOk(s, t);
    if (t, lease) in s.sent {
      assert SentOk(s, (t, lease).0, (t, lease).1);
      var i :| 0 <= i < |s.tasks[t].leases| && s.tasks[t].leases[i] == lease;
      assert Acked(s, s.tasks[t], s.tasks[t].leases[i]);
    }
  }

  /** A task that has ended leaves no lease of its own in the registry. */
  lemma NoLeaseLeftBehind(states: seq<State>, steps: seq<Step>, k: nat, t: nat, lease: string)
    requires IsRun(states, steps) && k < |states|
    requires t in states[k].tasks && states[k].tasks[t].phase.Ended? && Owned(states[k], t, lease)
    ensures lease !in states[k].registry
  {
    RunKeeps(states, steps, k);
    assert lease in states[k].registry ==> RegisteredOk(states[k], lease);
  }

  /** An answer is final: no later one replaces it. */
  lemma {:induction false} AnswerIsFinal(states: seq<State>, steps: seq<Step>, k: nat, j: nat, lease: string)
    requires IsRun(states, steps) && k <= j < |states| && lease in states[k].decisions
    ensures lease in states[j].decisions && states[j].decisions[lease] == states[k].decisions[lease]
    decreases j
  {
    if j > k {
      AnswerIsFinal(states, steps, k, j - 1, lease);
      RunKeeps(states, steps, j - 1);
      assert Follows(states[j - 1], steps[j - 1], states[j - 1 + 1]);
      StepGrows(states[j - 1], steps[j - 1]);
    }
  }

  // ----- with the table --------------------------------------------------------------------

  /** The tasks, the writer's queue and the message table. `queued` are the tasks whose delivered
      call waits for the writer; `recorded` tells which task's call turned the message of a claim
      to delivered. */
  datatype World = World(acks: State, queued: set<nat>, rows: M.Rows, recorded: map<(string, string), nat>)

  /** A step of the tasks; a call of the queue taking effect, or failing; or a statement of any
      other part of the broker. */
  datatype Move = Tasks(step: Step) | Record(t: nat) | Refuse(t: nat) | Table(op: M.Op)

  predicate CanMove(w: World, move: Move) {
    match move
    case Tasks(step) => Enabled(w.acks, step)
    case Record(t) => t in w.queued && t in w.acks.tasks
    case Refuse(t) => t in w.queued
    case Table(_) => true
  }

  /** The task has decided to call delivered. */
  predicate CallsDelivered(s: State, t: nat) { t in s.tasks && s.tasks[t].phase == Ended(CallDelivered) }

  function Moved(w: World, move: Move): World
    requires CanMove(w, move)
  {
    match move
    case Tasks(step) =>
      var acks := Do(w.acks, step);
      w.(acks := acks,
         queued := if step.Decide? && CallsDelivered(acks, step.t) then w.queued + {step.t} else w.queued)
    case Record(t) =>
      // the update names the claim's lease
      var task := w.acks.tasks[t];
      w.(queued := w.queued - {t}, rows := M.Apply(w.rows, M.Deliver(task.message, task.claim)),
         recorded := if M.Held(w.rows, task.message, task.claim)
                     then w.recorded[(task.message, task.claim) := t] else w.recorded)
    case Refuse(t) => w.(queued := w.queued - {t})
    case Table(op) => w.(rows := M.Apply(w.rows, op))
  }

  predicate IsDelivered(rows: M.Rows, message: string) {
    message in rows && rows[message].status.Delivered?
  }

  /** A recorded delivery is that of an ended task for this claim, and shows in the table. */
  predicate RecordedOk(w: World, message: string, claim: string) {
    && (message, claim) in w.recorded && CallsDelivered(w.acks, w.recorded[(message, claim)])
    && var task := w.acks.tasks[w.recorded[(message, claim)]];
    && task.message == message && task.claim == claim && IsDelivered(w.rows, message)
  }

  ghost predicate WorldInv(w: World) {
    && Inv(w.acks) && (forall t :: t in w.queued ==> CallsDelivered(w.acks, t))
    && forall p :: p in w.recorded ==> RecordedOk(w, p.0, p.1)
  }

  lemma EndedStays(s: State, step: Step, t: nat)
    requires Enabled(s, step) && CallsDelivered(s, t)
    ensures CallsDelivered(Do(s, step), t) && Do(s, step).tasks[t] == s.tasks[t]
  {
  }

  lemma DeliveredStays(rows: M.Rows, op: M.Op, message: string)
    requires IsDelivered(rows, message)
    ensures IsDelivered(M.Apply(rows, op), message)
  {
    M.RowsPersist(rows, op, message);
  }

  /** A record stays right: its message is not held any more, so no other call replaces it. */
  lemma RecordedStays(w: World, move: Move, message: string, claim: string)
    requires CanMove(w, move) && RecordedOk(w, message, claim)
    ensures RecordedOk(Moved(w, move), message, claim)
  {
    hide M.Apply, Do;
    match move {
      case Tasks(step) => EndedStays(w.acks, step, w.recorded[(message, claim)]);
      case Record(t) =>
        var task := w.acks.tasks[t];
        DeliveredStays(w.rows, M.Deliver(task.message, task.claim), message);
      case Refuse(_) =>
      case Table(op) => DeliveredStays(w.rows, op, message);
    }
  }

  lemma NewRecord(w: World, t: nat)
    requires CanMove(w, Record(t)) && CallsDelivered(w.acks, t)
    requires M.Held(w.rows, w.acks.tasks[t].message, w.acks.tasks[t].claim)
    ensures RecordedOk(Moved(w, Record(t)), w.acks.tasks[t].message, w.acks.tasks[t].claim)
  {
  }

  lemma MoveKeeps(w: World, move: Move)
    requires WorldInv(w) && CanMove(w, move)
    ensures WorldInv(Moved(w, move))
  {
    hide Inv, RecordedOk, CallsDelivered, Do, M.Apply, M.Held;
    if move.Tasks? { StepKeeps(w.acks, move.step); }
    var w' := Moved(w, move);
    forall t | t in w'.queued ensures CallsDelivered(w'.acks, t) {
      if t in w.queued && move.Tasks? { EndedStays(w.acks, move.step, t); }
    }
    forall p | p in w'.recorded ensures RecordedOk(w', p.0, p.1) {
      if p in w.recorded {
        RecordedStays(w, move, p.0, p.1);
      } else {
        NewRecord(w, move.t);
      }
    }
  }

  ghost predicate MoveFollows(w: World, move: Move, w': World) { CanMove(w, move) && w' == Moved(w, move) }

  ghost predicate IsHistory(worlds: seq<World>, moves: seq<Move>) {
    && |worlds| == |moves| + 1 && worlds[0].acks == START && worlds[0].queued == {} && worlds[0].recorded == map[]
    && forall k :: 0 <= k < |moves| ==> MoveFollows(worlds[k], moves[k], worlds[k + 1])
  }

  lemma {:induction false} HistoryKeeps(worlds: seq<World>, moves: seq<Move>, k: nat)
    requires IsHistory(worlds, moves) && k < |worlds|
    ensures WorldInv(worlds[k])
  {
    if k > 0 {
      HistoryKeeps(worlds, moves, k - 1);
      assert MoveFollows(worlds[k - 1], moves[k - 1], worlds[k - 1 + 1]);
      MoveKeeps(worlds[k - 1], moves[k - 1]);
    }
  }

  /** Over every history of tasks, answers and statements on any table: a claim whose message a
      task turned to delivered was that task's own, every stream the message was sent on had
      acknowledged it under its own lease if the topic is persistent, and the message shows
      delivered ever since. */
  lemma RecordedMeansAcked(worlds: seq<World>, moves: seq<Move>, k: nat, message: string, claim: string,
                           lease: string)
    requires IsHistory(worlds, moves) && k < |worlds| && (message, claim) in worlds[k].recorded
    ensures var w := worlds[k]; var s := w.acks;
      && w.recorded[(message, claim)] in s.tasks && IsDelivered(w.rows, message)
      && var t := w.recorded[(message, claim)]; var task := s.tasks[t];
      && task.message == message && task.claim == claim
      && (!task.ephemeral && (t, lease) in s.sent ==> Acked(s, task, lease) && Owned(s, t, lease))
  {
    HistoryKeeps(worlds, moves, k);
    var w := worlds[k];
    assert RecordedOk(w, (message, claim).0, (message, claim).1);
    var t := w.recorded[(message, claim)];
    if !w.acks.tasks[t].ephemeral { InvDelivered(w.acks, t, lease); }
  }
}
