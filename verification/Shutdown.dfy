/** How programs/helper.c ends: the forwarding thread, the signals and the timer
    that share one kqueue with run_until_termination. */
module Shutdown {
  import opened Wrappers

  type Flags = bv8
  const FAILURE: Flags := 1
  const STOPPED: Flags := 2
  const EXIT_SUCCESS: nat := 0
  const EXIT_FAILURE: nat := 1

  /** `user` is the shutdown event: None until triggered, then the flags or-ed
      into it; `signal` is a signal not yet delivered by kevent(). */
  datatype State = State(forwarding: bool, user: Option<Flags>, signal: bool, looping: bool, status: Flags,
                         exitCode: Option<nat>)

  const INIT := State(true, None, false, true, 0, None)

  datatype Step =
    | PeerCloses(triggered: bool)   // forward_from_vm() ends; triggered: kevent() succeeds
    | ForwardingFails(triggered: bool)
    | SignalArrives
    | TimerFires                    // report_stats()
    | KeventFails
    | GetSignal
    | GetShutdown
    | Return

  predicate Enabled(s: State, step: Step) {
    && s.exitCode.None?
    && match step
       case PeerCloses(_) => s.forwarding
       case ForwardingFails(_) => s.forwarding
       case SignalArrives => true
       case TimerFires => s.looping
       case KeventFails => s.looping
       case GetSignal => s.looping && s.signal
       case GetShutdown => s.looping && s.user.Some?
       case Return => !s.looping
  }

  /** trigger_shutdown(): NOTE_FFOR ors the flags into the event; a failure of
      kevent() exits the process. */
  function Trigger(s: State, flags: Flags, triggered: bool): State {
    var t := s.(forwarding := false);
    if !triggered then t.(exitCode := Some(EXIT_FAILURE))
    else t.(user := Some(if s.user.Some? then s.user.value | flags else flags))
  }

  function Next(s: State, step: Step): State
    requires Enabled(s, step)
  {
    match step
    case PeerCloses(triggered) => Trigger(s, STOPPED, triggered)
    case ForwardingFails(triggered) => Trigger(s, FAILURE, triggered)
    case SignalArrives => s.(signal := true)
    case TimerFires => s
    case KeventFails => s.(looping := false, status := s.status | FAILURE)
    case GetSignal => s.(looping := false, status := s.status | STOPPED, signal := false)
    case GetShutdown => s.(looping := false, status := s.status | s.user.value)
    case Return => s.(exitCode := Some(if s.status == 0 || s.status & STOPPED != 0 then EXIT_SUCCESS else EXIT_FAILURE))
  }

  function Run(steps: seq<Step>): Option<State> {
    if steps == [] then Some(INIT)
    else
      var n := |steps| - 1;
      var s := Run(steps[..n]);
      if s.Some? && Enabled(s.value, steps[n]) then Some(Next(s.value, steps[n])) else None
  }

  predicate IsTrigger(step: Step) { step.PeerCloses? || step.ForwardingFails? }
  predicate IsEnd(step: Step) { step in {KeventFails, GetSignal, GetShutdown} }

  /** The first event that ends the main loop, with what led to it. */
  ghost predicate EndedWell(steps: seq<Step>, i: nat)
    requires i < |steps|
  {
    steps[i] == GetSignal || (steps[i] == GetShutdown && PeerCloses(true) in steps[..i])
  }

  ghost predicate FirstEnd(steps: seq<Step>, i: nat) {
    i < |steps| && IsEnd(steps[i]) && forall j :: 0 <= j < i ==> !IsEnd(steps[j])
  }

  /** The steps that trigger, and those that end the loop, happen at most once. */
  ghost predicate HappenOnce(steps: seq<Step>, s: State) {
    && (s.forwarding <==> forall i :: 0 <= i < |steps| ==> !IsTrigger(steps[i]))
    && (forall i, j :: 0 <= i < j < |steps| ==> !(IsTrigger(steps[i]) && IsTrigger(steps[j])))
    && (s.looping <==> forall i :: 0 <= i < |steps| ==> !IsEnd(steps[i]))
    && (forall i, j :: 0 <= i < j < |steps| ==> !(IsEnd(steps[i]) && IsEnd(steps[j])))
  }

  ghost predicate EventTells(steps: seq<Step>, s: State) {
    && (s.forwarding ==> s.user == None)
    && (s.user == None || s.user == Some(STOPPED) || s.user == Some(FAILURE))
    && (s.user == Some(STOPPED) <==> PeerCloses(true) in steps)
  }

  ghost predicate StatusTells(steps: seq<Step>, s: State) {
    && (s.looping ==> s.status == 0)
    && (forall i :: 0 <= i < |steps| && IsEnd(steps[i]) ==>
                      s.status == if EndedWell(steps, i) then STOPPED else FAILURE)
    && (Return in steps ==>
          s.exitCode == Some(if s.status == STOPPED then EXIT_SUCCESS else EXIT_FAILURE) && !s.looping)
    && (s.exitCode == Some(EXIT_SUCCESS) ==> Return in steps)
  }

  ghost predicate Inv(steps: seq<Step>, s: State) {
    HappenOnce(steps, s) && EventTells(steps, s) && StatusTells(steps, s)
  }

  lemma StepKeepsHappenOnce(steps: seq<Step>, s: State, step: Step)
    requires HappenOnce(steps, s) && Enabled(s, step)
    ensures HappenOnce(steps + [step], Next(s, step))
  {
    var longer, n := steps + [step], |steps|;
    assert longer[n] == step;
    assert forall i :: 0 <= i < n ==> longer[i] == steps[i];
    hide EventTells, StatusTells;
  }

  lemma StepKeepsEventTells(steps: seq<Step>, s: State, step: Step)
    requires EventTells(steps, s) && Enabled(s, step)
    ensures EventTells(steps + [step], Next(s, step))
  {
    assert forall x :: x in steps + [step] <==> x in steps || x == step;
  }

  lemma StepKeepsStatusTells(steps: seq<Step>, s: State, step: Step)
    requires Inv(steps, s) && Enabled(s, step)
    ensures StatusTells(steps + [step], Next(s, step))
  {
    var longer, n := steps + [step], |steps|;
    assert longer[n] == step && longer[..n] == steps;
    assert forall i :: 0 <= i < n ==> longer[i] == steps[i] && longer[..i] == steps[..i];
    assert Return in longer <==> Return in steps || step == Return;
  }

  lemma {:induction false} RunKeepsInv(steps: seq<Step>)
    requires Run(steps).Some?
    ensures Inv(steps, Run(steps).value)
  {
    if steps != [] {
      var n := |steps| - 1;
      RunKeepsInv(steps[..n]);
      var s := Run(steps[..n]).value;
      StepKeepsHappenOnce(steps[..n], s, steps[n]);
      StepKeepsEventTells(steps[..n], s, steps[n]);
      StepKeepsStatusTells(steps[..n], s, steps[n]);
      assert steps == steps[..n] + [steps[n]];
    }
  }

  /** At most one shutdown event is ever triggered, and once the main loop has
      ended the status is exactly one of the two flags. */
  lemma OneShutdownOneStatus(steps: seq<Step>, i: nat, j: nat)
    requires Run(steps).Some? && i < |steps| && j < |steps|
    ensures IsTrigger(steps[i]) && IsTrigger(steps[j]) ==> i == j
    ensures !Run(steps).value.looping ==> Run(steps).value.status in {FAILURE, STOPPED}
  {
    RunKeepsInv(steps);
    if !Run(steps).value.looping {
      var k :| 0 <= k < |steps| && IsEnd(steps[k]);
    }
  }

  /** In every run, the exit code is success exactly when main() returned and the
      first event that ended its loop was a signal, or the shutdown event of a
      peer that closed. */
  lemma SuccessIffStoppedCleanly(steps: seq<Step>)
    requires Run(steps).Some?
    ensures Run(steps).value.exitCode == Some(EXIT_SUCCESS)
       <==> Return in steps && exists i: nat :: FirstEnd(steps, i) && EndedWell(steps, i)
  {
    RunKeepsInv(steps);
    if Return in steps {
      var i := ReturnHasAnEnd(steps);
      assert Run(steps).value.exitCode == Some(EXIT_SUCCESS) <==> EndedWell(steps, i);
    }
  }

  /** What the return is needed for: the process exits without it exactly when
      kevent() fails in trigger_shutdown(), whatever ended the loop. */
  lemma {:induction false} ExitsWithoutReturnIffTriggerFails(steps: seq<Step>)
    requires Run(steps).Some?
    ensures Run(steps).value.exitCode.Some? && Return !in steps
       <==> PeerCloses(false) in steps || ForwardingFails(false) in steps
  {
    if steps != [] {
      var n := |steps| - 1;
      ExitsWithoutReturnIffTriggerFails(steps[..n]);
      RunKeepsInv(steps[..n]);
      hide HappenOnce, EventTells;
      assert steps == steps[..n] + [steps[n]];
      assert forall x :: x in steps <==> x in steps[..n] || x == steps[n];
    }
  }

  /** The input that shows it: a signal ends the loop, then a failure to trigger
      the shutdown event exits before main() returns. */
  lemma SignalThenFailedTrigger() returns (steps: seq<Step>)
    ensures Run(steps).Some? && FirstEnd(steps, 1) && EndedWell(steps, 1)
    ensures Run(steps).value.exitCode == Some(EXIT_FAILURE)
  {
    steps := [SignalArrives, GetSignal, ForwardingFails(false)];
    assert steps[..2][..1] == [SignalArrives];
    assert Run([SignalArrives]) == Some(INIT.(signal := true));
  }

  /** The event that ended the loop of a run in which main() returned. */
  lemma ReturnHasAnEnd(steps: seq<Step>) returns (i: nat)
    requires Run(steps).Some? && Return in steps
    ensures FirstEnd(steps, i)
  {
    RunKeepsInv(steps);
    i :| 0 <= i < |steps| && IsEnd(steps[i]);
  }
}
