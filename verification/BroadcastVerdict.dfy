/** What a delivery task of src/delivery.rs comes to, and that no acknowledgement is lost on it: the
    other half of what BroadcastAck proves. */
module BroadcastVerdict {
  import opened Wrappers
  import opened BroadcastAck
  import M = MessageStore

  // ----- the call a task makes -------------------------------------------------------------

  /** What came of the waits of a task, in order. */
  function Outcomes(steps: seq<Step>, t: nat): seq<Outcome> {
    if steps == [] then []
    else
      var last := steps[|steps| - 1];
      Outcomes(steps[..|steps| - 1], t) + if last.Wait? && last.t == t then [last.outcome] else []
  }

  predicate AllSuccess(os: seq<Outcome>) { forall i :: 0 <= i < |os| ==> os[i] == Success }

  /** On an ephemeral topic a message that any stream took is delivered, and any other dropped. On a
      persistent one, a message no stream took has failed; else the task waits for every stream,
      and calls delivered if all succeeded, failed if not, and nothing if the broker shut down. */
  predicate RightCall(call: Call, ephemeral: bool, sent: nat, os: seq<Outcome>, cancelled: bool) {
    if ephemeral then os == [] && call == if sent == 0 then CallDropped else CallDelivered
    else if sent == 0 then os == [] && call == CallFailed
    else
      && (call == CallDelivered ==> |os| == sent && AllSuccess(os))
      && (call == CallFailed ==> |os| == sent && !AllSuccess(os))
      && (call == NoCall ==> cancelled) && call != CallDropped
  }

  /** How far a task has got with its waits. */
  predicate Waited(task: Task, os: seq<Outcome>, cancelled: bool) {
    match task.phase
    case Sending(_) => os == []
    case Awaiting(next, allOk) =>
      !task.ephemeral && task.leases != [] && |os| == next <= |task.leases| && (allOk <==> AllSuccess(os))
    case Closing(_, allOk) =>
      && task.leases != [] && (allOk <==> AllSuccess(os))
      && (if task.ephemeral then os == [] else cancelled || |os| == |task.leases|)
    case Ended(call) => RightCall(call, task.ephemeral, |task.leases|, os, cancelled)
  }

  ghost predicate Told(s: State, t: nat, os: seq<Outcome>) {
    if t in s.tasks then Waited(s.tasks[t], os, s.cancelled) else os == []
  }

  lemma AllSuccessAppend(os: seq<Outcome>, o: Outcome)
    ensures AllSuccess(os + [o]) <==> AllSuccess(os) && o == Success
  {
    var all := os + [o];
    assert forall i :: 0 <= i < |os| ==> all[i] == os[i];
    assert all[|os|] == o;
  }

  lemma StepTold(s: State, step: Step, t: nat, os: seq<Outcome>)
    requires Enabled(s, step) && Told(s, t, os)
    ensures Told(Do(s, step), t, os + if step.Wait? && step.t == t then [step.outcome] else [])
  {
    assert os + [] == os;
    if step.Wait? && step.t == t { AllSuccessAppend(os, step.outcome); }
  }

  lemma {:induction false} RunTold(states: seq<State>, steps: seq<Step>, k: nat, t: nat)
    requires IsRun(states, steps) && k < |states|
    ensures Told(states[k], t, Outcomes(steps[..k], t))
  {
    if k > 0 {
      RunTold(states, steps, k - 1, t);
      assert Follows(states[k - 1], steps[k - 1], states[k - 1 + 1]);
      assert steps[..k][..k - 1] == steps[..k - 1];
      hide Told;
      StepTold(states[k - 1], steps[k - 1], t, Outcomes(steps[..k - 1], t));
    }
  }

  /** In every run the call a task made is the right one for what its sends and waits came to. */
  lemma CallIsRight(states: seq<State>, steps: seq<Step>, k: nat, t: nat)
    requires IsRun(states, steps) && k < |states| && t in states[k].tasks && states[k].tasks[t].phase.Ended?
    ensures var task := states[k].tasks[t];
      RightCall(task.phase.call, task.ephemeral, |task.leases|, Outcomes(steps[..k], t), states[k].cancelled)
  {
    RunTold(states, steps, k, t);
  }

  /** Once the broker shuts down, a task that waits for acknowledgements makes no call any more. */
  lemma {:induction false} ShutdownStays(states: seq<State>, steps: seq<Step>, k: nat, j: nat)
    requires IsRun(states, steps) && k < j < |states| && steps[k].Shutdown?
    ensures states[j].cancelled
    decreases j
  {
    assert Follows(states[j - 1], steps[j - 1], states[j - 1 + 1]);
    if j > k + 1 { ShutdownStays(states, steps, k, j - 1); }
  }

  lemma ShutdownMeansNoCall(states: seq<State>, steps: seq<Step>, k: nat, j: nat, t: nat)
    requires IsRun(states, steps) && k < j < |steps| && steps[k].Shutdown? && steps[j] == Decide(t)
    requires t in states[j].tasks && !states[j].tasks[t].ephemeral
    ensures t in states[j + 1].tasks && states[j + 1].tasks[t].phase == Ended(NoCall)
  {
    ShutdownStays(states, steps, k, j);
    assert Follows(states[j], steps[j], states[j + 1]);
  }

  // ----- no acknowledgement is lost --------------------------------------------------------

  /** The lease is answered, or registered for the message, so that an answer will be taken. */
  predicate Open(s: State, lease: string, message: string) {
    lease in s.decisions || (lease in s.registry && s.registry[lease] == message)
  }

  /** A task that still sends or waits has all its leases open. */
  ghost predicate TaskOpen(s: State, t: nat)
    requires t in s.tasks
  {
    var task := s.tasks[t];
    task.phase.Sending? || task.phase.Awaiting? ==>
      && (forall i :: 0 <= i < |task.leases| ==> Open(s, task.leases[i], task.message))
      && (task.phase.Sending? && task.phase.pending.Some? ==>
            Open(s, task.phase.pending.value, task.message) && task.phase.pending.value !in task.leases)
  }

  ghost predicate AllOpen(s: State) { Inv(s) && forall t :: t in s.tasks ==> TaskOpen(s, t) }

  /** A lease stays open unless its own task takes it back. */
  lemma OpenStays(s: State, step: Step, t: nat, lease: string)
    requires Inv(s) && Enabled(s, step) && t in s.tasks && Owned(s, t, lease) && Open(s, lease, s.tasks[t].message)
    requires step.NotSent? && step.t == t ==> s.tasks[t].phase.pending != Some(lease)
    requires step.Unregister? ==> step.t != t
    ensures Open(Do(s, step), lease, s.tasks[t].message)
  {
    if step.NotSent? || step.Unregister? { InvTask(s, step.t); }
    if lease in s.decisions { AnswersGrow(s, step, lease); }
    if step.Register? { assert step.lease != lease; }
    hide Inv, PhaseOk, NonEmpty;
  }

  lemma LeasesStayOpen(s: State, step: Step, t: nat, i: nat)
    requires Inv(s) && Enabled(s, step) && t in s.tasks && TaskOpen(s, t) && i < |s.tasks[t].leases|
    requires s.tasks[t].phase.Sending? || s.tasks[t].phase.Awaiting?
    ensures Open(Do(s, step), s.tasks[t].leases[i], s.tasks[t].message)
  {
    InvTask(s, t);
    hide Inv, PhaseOk, NonEmpty, Do, Open;
    assert Owned(s, t, s.tasks[t].leases[i]);
    OpenStays(s, step, t, s.tasks[t].leases[i]);
  }

  /** The lease whose send is under way, unless the task gives it up now. */
  lemma PendingStaysOpen(s: State, step: Step, t: nat)
    requires Inv(s) && Enabled(s, step) && t in s.tasks && TaskOpen(s, t)
    requires s.tasks[t].phase.Sending? && s.tasks[t].phase.pending.Some?
    requires step.NotSent? ==> step.t != t
    ensures Open(Do(s, step), s.tasks[t].phase.pending.value, s.tasks[t].message)
  {
    InvTask(s, t);
    hide Inv, PhaseOk, NonEmpty, Do, Open;
    OpenStays(s, step, t, s.tasks[t].phase.pending.value);
  }

  /** What a step can do to the leases of a task that still sends or waits after it. */
  lemma LeasesMove(s: State, step: Step, t: nat)
    requires Enabled(s, step) && t in s.tasks
    ensures t in Do(s, step).tasks
    ensures var task, task' := s.tasks[t], Do(s, step).tasks[t];
      task'.phase.Sending? || task'.phase.Awaiting? ==>
        && task'.message == task.message && (task.phase.Sending? || task.phase.Awaiting?)
        && if step == Sent(t) then
             task.phase.Sending? && task.phase.pending.Some?
             && task'.leases == task.leases + [task.phase.pending.value] && task'.phase == Sending(None)
           else
             && task'.leases == task.leases
             && (task'.phase.Sending? && task'.phase.pending.Some? ==>
                   (task'.phase == task.phase && step != NotSent(t))
                   || (step.Register? && step.t == t && task'.phase.pending.value == step.lease))
  {
  }

  lemma NewLeaseOpen(s: State, step: Step)
    requires Inv(s) && Enabled(s, step) && step.Register?
    ensures Open(Do(s, step), step.lease, s.tasks[step.t].message) && step.lease !in s.tasks[step.t].leases
  {
    InvTask(s, step.t);
    var task := s.tasks[step.t];
    assert forall i :: 0 <= i < |task.leases| ==> Owned(s, step.t, task.leases[i]);
  }

  lemma TaskStaysOpen(s: State, step: Step, t: nat)
    requires AllOpen(s) && Enabled(s, step) && t in Do(s, step).tasks
    ensures TaskOpen(Do(s, step), t)
  {
    if t in s.tasks {
      LeasesMove(s, step, t);
      assert TaskOpen(s, t);
      if step.Register? && step.t == t { NewLeaseOpen(s, step); }
      hide Inv, Do, Enabled, Open;
      var task, task' := s.tasks[t], Do(s, step).tasks[t];
      if task'.phase.Sending? || task'.phase.Awaiting? {
        forall i | 0 <= i < |task.leases| ensures Open(Do(s, step), task.leases[i], task.message) {
          LeasesStayOpen(s, step, t, i);
        }
        if task.phase.Sending? && task.phase.pending.Some? && step != NotSent(t) { PendingStaysOpen(s, step, t); }
      }
    }
  }

  lemma StepOpen(s: State, step: Step)
    requires AllOpen(s) && Enabled(s, step)
    ensures AllOpen(Do(s, step))
  {
    StepKeeps(s, step);
    hide Inv, TaskOpen;
    forall t | t in Do(s, step).tasks ensures TaskOpen(Do(s, step), t) { TaskStaysOpen(s, step, t); }
  }

  lemma {:induction false} RunOpen(states: seq<State>, steps: seq<Step>, k: nat)
    requires IsRun(states, steps) && k < |states|
    ensures AllOpen(states[k])
  {
    if k > 0 {
      RunOpen(states, steps, k - 1);
      assert Follows(states[k - 1], steps[k - 1], states[k - 1 + 1]);
      StepOpen(states[k - 1], steps[k - 1]);
    }
  }

  /** In every run, an answer under a lease the task still waits for, naming its message, is
      recorded, unless that lease was answered before; and any other answer changes nothing. */
  lemma AnswerCounts(states: seq<State>, steps: seq<Step>, k: nat, t: nat, lease: string, message: string, success: bool)
    requires IsRun(states, steps) && k < |states| && t in states[k].tasks
    requires states[k].tasks[t].phase.Awaiting? && lease in states[k].tasks[t].leases
    ensures var s, s' := states[k], Do(states[k], Answer(message, lease, success));
      if lease !in s.decisions && message == s.tasks[t].message then
        lease in s'.decisions && s'.decisions[lease] == Decision(message, success) && lease !in s'.registry
        && s'.tasks == s.tasks
      else s' == s
  {
    RunOpen(states, steps, k);
    var s := states[k];
    assert TaskOpen(s, t);
    var i :| 0 <= i < |s.tasks[t].leases| && s.tasks[t].leases[i] == lease;
    assert Open(s, s.tasks[t].leases[i], s.tasks[t].message);
    if lease in s.registry { assert RegisteredOk(s, lease); }
    InvTask(s, t);
    assert Owned(s, t, s.tasks[t].leases[i]);
  }

  /** Answers, a shutdown and the statements of others may come at any time, and a queued call may
      fail instead of taking effect. */
  lemma AtAnyTime(w: World, message: string, lease: string, success: bool, op: M.Op, t: nat)
    ensures CanMove(w, Tasks(Answer(message, lease, success))) && CanMove(w, Tasks(Shutdown))
    ensures Moved(w, Tasks(Shutdown)) == w.(acks := w.acks.(cancelled := true))
    ensures CanMove(w, Table(op)) && Moved(w, Table(op)) == w.(rows := M.Apply(w.rows, op))
    ensures t in w.queued ==> CanMove(w, Refuse(t)) && Moved(w, Refuse(t)) == w.(queued := w.queued - {t})
  {
  }

  // ----- what was sent is what is waited for -----------------------------------------------

  ghost predicate LeasesSent(s: State) {
    forall t, lease :: t in s.tasks && lease in s.tasks[t].leases ==> (t, lease) in s.sent
  }

  lemma StepSent(s: State, step: Step)
    requires LeasesSent(s) && Enabled(s, step)
    ensures LeasesSent(Do(s, step))
  {
    var s' := Do(s, step);
    forall t, lease | t in s'.tasks && lease in s'.tasks[t].leases ensures (t, lease) in s'.sent {
      if t in s.tasks && lease in s.tasks[t].leases { assert (t, lease) in s.sent; }
    }
  }

  lemma {:induction false} RunSent(states: seq<State>, steps: seq<Step>, k: nat)
    requires IsRun(states, steps) && k < |states|
    ensures LeasesSent(states[k])
  {
    if k > 0 {
      RunSent(states, steps, k - 1);
      assert Follows(states[k - 1], steps[k - 1], states[k - 1 + 1]);
      StepSent(states[k - 1], steps[k - 1]);
    }
  }

  /** In every run, the leases a task waits for are exactly those of the streams that took the message. */
  lemma SentExactly(states: seq<State>, steps: seq<Step>, k: nat, t: nat, lease: string)
    requires IsRun(states, steps) && k < |states|
    ensures (t, lease) in states[k].sent <==> t in states[k].tasks && lease in states[k].tasks[t].leases
  {
    RunSent(states, steps, k);
    RunKeeps(states, steps, k);
    if (t, lease) in states[k].sent { assert SentOk(states[k], (t, lease).0, (t, lease).1); }
  }

  // ----- a task on its own -----------------------------------------------------------------

  /** The steps are enabled one after the other and lead from `s` to `u`. */
  ghost predicate Goes(s: State, steps: seq<Step>, u: State)
    decreases |steps|
  {
    if steps == [] then s == u else Enabled(s, steps[0]) && Goes(Do(s, steps[0]), steps[1..], u)
  }

  lemma GoesFirst(s: State, a: Step, steps: seq<Step>, u: State)
    requires Enabled(s, a) && Goes(Do(s, a), steps, u)
    ensures Goes(s, [a] + steps, u)
  {
    assert ([a] + steps)[1..] == steps;
  }

  /** What the wait for a lease can come to. */
  predicate CanBe(s: State, lease: string, o: Outcome) {
    match o
    case Success => Decided(s, lease, true)
    case Nack => Decided(s, lease, false)
    case Silent => true
  }

  /** The registrations are taken back one by one, and the task makes its call. */
  lemma {:induction false} ClosesThenCalls(s: State, t: nat) returns (steps: seq<Step>, u: State)
    requires t in s.tasks && s.tasks[t].phase.Closing? && s.tasks[t].phase.next <= |s.tasks[t].leases|
    requires !s.cancelled && !s.tasks[t].ephemeral
    ensures Goes(s, steps, u) && t in u.tasks
    ensures u.tasks[t].phase == Ended(if s.tasks[t].phase.allOk then CallDelivered else CallFailed)
    decreases |s.tasks[t].leases| - s.tasks[t].phase.next
  {
    if s.tasks[t].phase.next == |s.tasks[t].leases| {
      u := Do(s, Decide(t));
      GoesFirst(s, Decide(t), [], u);
      steps := [Decide(t)] + [];
    } else {
      var later;
      later, u := ClosesThenCalls(Do(s, Unregister(t)), t);
      GoesFirst(s, Unregister(t), later, u);
      steps := [Unregister(t)] + later;
    }
  }

  lemma {:induction false} WaitsThenCalls(s: State, t: nat, os: seq<Outcome>) returns (steps: seq<Step>, u: State)
    requires t in s.tasks && s.tasks[t].phase.Awaiting? && !s.cancelled && !s.tasks[t].ephemeral
    requires s.tasks[t].phase.next + |os| == |s.tasks[t].leases|
    requires forall i :: 0 <= i < |os| ==> CanBe(s, s.tasks[t].leases[s.tasks[t].phase.next + i], os[i])
    ensures Goes(s, steps, u) && t in u.tasks
    ensures u.tasks[t].phase
      == Ended(if s.tasks[t].phase.allOk && AllSuccess(os) then CallDelivered else CallFailed)
    decreases |os|
  {
    var later;
    if os == [] {
      later, u := ClosesThenCalls(Do(s, BroadcastAck.Waited(t)), t);
      GoesFirst(s, BroadcastAck.Waited(t), later, u);
      steps := [BroadcastAck.Waited(t)] + later;
    } else {
      assert CanBe(s, s.tasks[t].leases[s.tasks[t].phase.next + 0], os[0]);
      var next := Do(s, Wait(t, os[0]));
      forall i | 0 <= i < |os[1..]| ensures CanBe(next, next.tasks[t].leases[next.tasks[t].phase.next + i], os[1..][i]) {
        assert CanBe(s, s.tasks[t].leases[s.tasks[t].phase.next + (i + 1)], os[i + 1]);
      }
      later, u := WaitsThenCalls(next, t, os[1..]);
      GoesFirst(s, Wait(t, os[0]), later, u);
      steps := [Wait(t, os[0])] + later;
      assert AllSuccess(os) <==> os[0] == Success && AllSuccess(os[1..]) by {
        assert os == [os[0]] + os[1..];
        assert forall i :: 0 < i < |os| ==> os[i] == os[1..][i - 1];
      }
    }
  }

  /** A task that has sent its message and is left alone comes to its call: delivered if every wait
      succeeds, failed if one does not. */
  lemma ComesToItsCall(s: State, t: nat, os: seq<Outcome>) returns (steps: seq<Step>, u: State)
    requires t in s.tasks && s.tasks[t].phase == Sending(None) && !s.cancelled && !s.tasks[t].ephemeral
    requires |os| == |s.tasks[t].leases| > 0
    requires forall i :: 0 <= i < |os| ==> CanBe(s, s.tasks[t].leases[i], os[i])
    ensures Goes(s, steps, u) && t in u.tasks
    ensures u.tasks[t].phase == Ended(if AllSuccess(os) then CallDelivered else CallFailed)
  {
    var next := Do(s, Targeted(t));
    forall i | 0 <= i < |os| ensures CanBe(next, next.tasks[t].leases[next.tasks[t].phase.next + i], os[i]) {
      assert CanBe(s, s.tasks[t].leases[i], os[i]);
    }
    var later;
    later, u := WaitsThenCalls(next, t, os);
    GoesFirst(s, Targeted(t), later, u);
    steps := [Targeted(t)] + later;
  }
}
