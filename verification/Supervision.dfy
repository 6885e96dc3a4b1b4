/** How programs/run.c supervises the helper and the command once its exit handler
    is registered: fork, waitpid, signals, and the final wait. */
module Supervision {
  import opened Wrappers

  const SIGINT: nat := 2
  const SIGTERM: nat := 15

  /** What waitpid() reports of a child that ended. */
  datatype WaitStatus = Exited(code: nat) | Signaled(sig: nat)
  datatype Child = NotForked | Running | Zombie(st: WaitStatus) | Reaped(st: WaitStatus)

  datatype End = NoChildren | Interrupted | KillFailed
  datatype Phase =
    | Starting        // create_socketpair() and the fork of the helper are next
    | HelperStarted   // the fork of the command is next
    | Waiting         // in wait_for_command()
    | Exiting         // exit status decided, terminate_process_group() is next
    | FinalWait       // in its wait() loop, SIGTERM ignored
    | Done(end: End)

  /** `ignored` says that the runner was started with SIGCHLD ignored, so that the
      kernel reaps its children; `terminated` is the flag the signal handler sets,
      `interrupted` says that a handler ran while the runner was blocked, and
      `readUnset` that the status of a failed waitpid() was looked at. */
  datatype State = State(ignored: bool, phase: Phase, helper: Child, command: Child, terminated: nat,
                         interrupted: bool, readUnset: bool, ret: nat)

  function Init(ignored: bool): State {
    State(ignored, Starting, NotForked, NotForked, 0, false, false, 0)
  }

  datatype Step =
    | SocketpairFails
    | ForkHelper(ok: bool)
    | ForkCommand(ok: bool)
    | HelperDies(st: WaitStatus)
    | CommandDies(st: WaitStatus)
    | Signal(signo: nat, blocked: bool)   // SIGINT or SIGTERM, and whether it interrupts a wait
    | WaitpidReturns
    | WaitpidFails                        // EINTR
    | WaitpidFindsNone                    // ECHILD: the runner exits with a failure
    | Killpg(ok: bool)
    | WaitReapsHelper
    | WaitReapsCommand
    | WaitFails                           // EINTR
    | WaitEmpty                           // ECHILD

  function Code(st: WaitStatus): nat {
    match st
    case Exited(code) => code
    case Signaled(sig) => 128 + sig
  }

  predicate Unreaped(c: Child) { c.Running? || c.Zombie? }

  predicate AllReaped(s: State) { !Unreaped(s.helper) && !Unreaped(s.command) }

  predicate Enabled(s: State, step: Step) {
    match step
    case SocketpairFails => s.phase == Starting
    case ForkHelper(_) => s.phase == Starting
    case ForkCommand(_) => s.phase == HelperStarted
    case HelperDies(_) => s.helper == Running && !s.phase.Done?
    case CommandDies(_) => s.command == Running && !s.phase.Done?
    case Signal(signo, blocked) =>
      && signo in {SIGINT, SIGTERM} && !s.phase.Done?
      && (s.phase == FinalWait ==> signo == SIGINT)
      && (blocked ==> s.phase in {Waiting, FinalWait})
    case WaitpidReturns => s.phase == Waiting && s.command.Zombie?
    case WaitpidFails => s.phase == Waiting && s.interrupted
    case WaitpidFindsNone => s.phase == Waiting && s.command.Reaped?
    case Killpg(_) => s.phase == Exiting
    case WaitReapsHelper => s.phase == FinalWait && s.helper.Zombie?
    case WaitReapsCommand => s.phase == FinalWait && s.command.Zombie?
    case WaitFails => s.phase == FinalWait && s.interrupted && !AllReaped(s)
    case WaitEmpty => s.phase == FinalWait && AllReaped(s)
  }

  function Next(s: State, step: Step): State
    requires Enabled(s, step)
  {
    match step
    case SocketpairFails => s.(phase := Exiting, ret := 1)
    case ForkHelper(ok) => if ok then s.(phase := HelperStarted, helper := Running) else s.(phase := Exiting, ret := 1)
    case ForkCommand(ok) => if ok then s.(phase := Waiting, command := Running) else s.(phase := Exiting, ret := 1)
    case HelperDies(st) => s.(helper := if s.ignored then Reaped(st) else Zombie(st))
    case CommandDies(st) => s.(command := if s.ignored then Reaped(st) else Zombie(st))
    case Signal(signo, blocked) => s.(terminated := signo, interrupted := s.interrupted || blocked)
    case WaitpidReturns => s.(phase := Exiting, command := Reaped(s.command.st), ret := Code(s.command.st))
    case WaitpidFails =>
      if s.terminated != 0 then s.(phase := Exiting, interrupted := false, ret := 128 + s.terminated)
      else s.(interrupted := false, readUnset := true)
    case WaitpidFindsNone => s.(phase := Exiting, ret := 1)
    case Killpg(ok) => s.(phase := if ok then FinalWait else Done(KillFailed), interrupted := false)
    case WaitReapsHelper => s.(helper := Reaped(s.helper.st))
    case WaitReapsCommand => s.(command := Reaped(s.command.st))
    case WaitFails => s.(phase := Done(Interrupted))
    case WaitEmpty => s.(phase := Done(NoChildren))
  }

  /** The state these steps lead to from the start, if all of them can be taken. */
  function Run(ignored: bool, steps: seq<Step>): Option<State> {
    if steps == [] then Some(Init(ignored))
    else
      var n := |steps| - 1;
      var s := Run(ignored, steps[..n]);
      if s.Some? && Enabled(s.value, steps[n]) then Some(Next(s.value, steps[n])) else None
  }

  ghost predicate Signalled(steps: seq<Step>, signo: nat) {
    Signal(signo, true) in steps || Signal(signo, false) in steps
  }

  /** The exit status is the command's, or the runner's own signal, or that of a
      start that failed, or of a command whose status the kernel threw away. */
  ghost predicate Justified(steps: seq<Step>, t: State) {
    || (!t.ignored && t.command.Reaped? && CommandDies(t.command.st) in steps && t.ret == Code(t.command.st))
    || (t.ret in {130, 143} && Signalled(steps, t.ret - 128))
    || (t.ret == 1 && (SocketpairFails in steps || ForkHelper(false) in steps || ForkCommand(false) in steps))
    || (t.ret == 1 && t.ignored && t.command.Reaped? && CommandDies(t.command.st) in steps)
  }

  /** A SIGINT interrupted a wait of the runner after it had terminated its
      process group, which is when it waits for the last time. */
  ghost predicate FinalWaitInterrupted(steps: seq<Step>) {
    exists i, j :: 0 <= i < j < |steps| && steps[i] == Killpg(true) && steps[j] == Signal(SIGINT, true)
  }

  ghost predicate StatusInv(steps: seq<Step>, t: State) {
    && (t.command.Zombie? || t.command.Reaped? ==> CommandDies(t.command.st) in steps)
    && (t.command.Zombie? ==> !t.ignored)
    && (t.phase == Waiting && t.command.Reaped? ==> t.ignored)
    && (t.terminated != 0 ==> t.terminated in {2, 15} && Signalled(steps, t.terminated))
    && (t.interrupted ==> t.terminated != 0)
    && !t.readUnset
    && (t.phase in {Exiting, FinalWait} || t.phase.Done? ==> Justified(steps, t))
    && (t.phase == Starting ==> t.helper == NotForked)
    && (t.phase in {Starting, HelperStarted} ==> t.command == NotForked)
    && (t.phase == Waiting ==> t.command != NotForked)
    && (ForkHelper(true) in steps ==> t.helper != NotForked)
    && (ForkCommand(true) in steps ==> t.command != NotForked)
  }

  ghost predicate EndInv(steps: seq<Step>, t: State) {
    && (t.phase == FinalWait ==> Killpg(true) in steps)
    && (t.phase == FinalWait && t.interrupted ==> FinalWaitInterrupted(steps))
    && (t.phase == Done(Interrupted) ==> FinalWaitInterrupted(steps) && !AllReaped(t))
    && (t.phase == Done(NoChildren) ==> AllReaped(t))
    && (t.phase == Done(KillFailed) ==> Killpg(false) in steps)
  }

  lemma StepKeepsStatusInv(steps: seq<Step>, s: State, step: Step)
    requires StatusInv(steps, s) && Enabled(s, step)
    ensures StatusInv(steps + [step], Next(s, step))
  {
    assert forall x :: x in steps + [step] <==> x in steps || x == step;
  }

  lemma StillInterrupted(steps: seq<Step>, step: Step)
    ensures FinalWaitInterrupted(steps) ==> FinalWaitInterrupted(steps + [step])
    ensures Killpg(true) in steps && step == Signal(SIGINT, true) ==> FinalWaitInterrupted(steps + [step])
  {
    var longer := steps + [step];
    assert forall i :: 0 <= i < |steps| ==> longer[i] == steps[i];
    assert longer[|steps|] == step;
  }

  lemma StepKeepsEndInv(steps: seq<Step>, s: State, step: Step)
    requires EndInv(steps, s) && Enabled(s, step)
    ensures EndInv(steps + [step], Next(s, step))
  {
    StillInterrupted(steps, step);
    hide FinalWaitInterrupted;
    assert forall x :: x in steps + [step] <==> x in steps || x == step;
  }

  lemma {:induction false} RunKeepsInv(ignored: bool, steps: seq<Step>)
    requires Run(ignored, steps).Some?
    ensures var t := Run(ignored, steps).value; StatusInv(steps, t) && EndInv(steps, t) && t.ignored == ignored
  {
    if steps != [] {
      var n := |steps| - 1;
      RunKeepsInv(ignored, steps[..n]);
      StepKeepsStatusInv(steps[..n], Run(ignored, steps[..n]).value, steps[n]);
      StepKeepsEndInv(steps[..n], Run(ignored, steps[..n]).value, steps[n]);
      hide StatusInv, EndInv;
      assert steps == steps[..n] + [steps[n]];
    }
  }

  /** In every interleaving of child exits and signals, a runner that has ended
      has a justified exit status and never looked at a status that waitpid()
      had not filled. */
  lemma ExitStatusIsJustified(ignored: bool, steps: seq<Step>)
    requires Run(ignored, steps).Some? && Run(ignored, steps).value.phase.Done?
    ensures Justified(steps, Run(ignored, steps).value) && !Run(ignored, steps).value.readUnset
  {
    RunKeepsInv(ignored, steps);
  }

  /** When the start succeeded and no signal came, the exit status is the command's
      own unless the runner was started with SIGCHLD ignored: it is then always 1. */
  lemma StatusIsCommandsIff(ignored: bool, steps: seq<Step>)
    requires Run(ignored, steps).Some? && Run(ignored, steps).value.phase.Done?
    requires SocketpairFails !in steps && ForkHelper(false) !in steps && ForkCommand(false) !in steps
    requires forall signo :: !Signalled(steps, signo)
    ensures var t := Run(ignored, steps).value;
            && t.command.Reaped? && CommandDies(t.command.st) in steps
            && (t.ret == Code(t.command.st) <==> !ignored || Code(t.command.st) == 1)
            && (ignored ==> t.ret == 1)
            && (!ignored ==> t.ret == match t.command.st
                                      case Exited(code) => code
                                      case Signaled(signo) => 128 + signo)
  {
    hide Run, Next, Enabled, EndInv;
    RunKeepsInv(ignored, steps);
  }

  /** The runner is never stuck: until it has ended, it can take a step, or a child
      that it waits for is still running. */
  lemma NeverStuck(ignored: bool, steps: seq<Step>) returns (step: Step)
    requires Run(ignored, steps).Some? && !Run(ignored, steps).value.phase.Done?
    ensures Enabled(Run(ignored, steps).value, step) && !step.Signal?
    ensures step.HelperDies? || step.CommandDies? ==>
              var s := Run(ignored, steps).value;
              s.phase == FinalWait || (s.phase == Waiting && step.CommandDies?)
  {
    RunKeepsInv(ignored, steps);
    var s := Run(ignored, steps).value;
    hide Run, StatusInv, EndInv, Next;
    match s.phase
    case Starting => step := ForkHelper(true);
    case HelperStarted => step := ForkCommand(true);
    case Waiting =>
      step := if s.command == Running then CommandDies(Exited(0))
              else if s.command.Zombie? then WaitpidReturns else WaitpidFindsNone;
    case Exiting => step := Killpg(true);
    case FinalWait =>
      step := if s.helper == Running then HelperDies(Exited(0)) else if s.command == Running then CommandDies(Exited(0))
              else if s.helper.Zombie? then WaitReapsHelper else if s.command.Zombie? then WaitReapsCommand
              else WaitEmpty;
  }

  /** A command that succeeds while SIGCHLD is ignored, and a runner that fails. */
  lemma IgnoringChildrenLosesStatus() returns (steps: seq<Step>, t: State)
    ensures steps == [ForkHelper(true), ForkCommand(true), HelperDies(Exited(0)), CommandDies(Exited(0)),
                      WaitpidFindsNone, Killpg(true), WaitEmpty]
    ensures Run(true, steps) == Some(t) && t.command == Reaped(Exited(0)) && t.ret == 1 && t.phase == Done(NoChildren)
  {
    steps, t := StatusIsLost();
    hide Run;
    steps, t := Take(true, steps, t, WaitpidFindsNone);
    steps, t := Take(true, steps, t, Killpg(true));
    steps, t := Take(true, steps, t, WaitEmpty);
  }

  lemma StatusIsLost() returns (steps: seq<Step>, t: State)
    ensures steps == [ForkHelper(true), ForkCommand(true), HelperDies(Exited(0)), CommandDies(Exited(0))]
    ensures t == State(true, Waiting, Reaped(Exited(0)), Reaped(Exited(0)), 0, false, false, 0)
    ensures Run(true, steps) == Some(t)
  {
    assert Run(true, []) == Some(Init(true));
    hide Run;
    steps, t := Take(true, [], Init(true), ForkHelper(true));
    steps, t := Take(true, steps, t, ForkCommand(true));
    steps, t := Take(true, steps, t, HelperDies(Exited(0)));
    steps, t := Take(true, steps, t, CommandDies(Exited(0)));
  }

  /** A runner that has ended has reaped every child it forked, unless killpg()
      failed or a SIGINT interrupted its final wait. */
  lemma AllReapedUnlessInterrupted(ignored: bool, steps: seq<Step>)
    requires Run(ignored, steps).Some? && Run(ignored, steps).value.phase.Done?
    requires Killpg(false) !in steps && !FinalWaitInterrupted(steps)
    ensures var t := Run(ignored, steps).value;
            && AllReaped(t)
            && (ForkHelper(true) in steps ==> t.helper.Reaped?)
            && (ForkCommand(true) in steps ==> t.command.Reaped?)
  {
    hide Next, Enabled;
    RunKeepsInv(ignored, steps);
    var t := Run(ignored, steps).value;
    match t.phase.end
    case NoChildren =>
    case Interrupted =>
    case KillFailed =>
  }

  /** The runner may end with a child left, after these steps. */
  ghost predicate MayLeaveChild(ignored: bool, steps: seq<Step>) {
    exists more ::
      && Run(ignored, steps + more).Some?
      && Run(ignored, steps + more).value.phase.Done?
      && !AllReaped(Run(ignored, steps + more).value)
  }

  /** In the final wait that exception is real for as long as there is a child to
      wait for: one SIGINT then suffices to leave it behind, and afterwards
      nothing does. */
  lemma FinalWaitMayLeaveChildIff(ignored: bool, steps: seq<Step>)
    requires Run(ignored, steps).Some? && Run(ignored, steps).value.phase == FinalWait
    ensures MayLeaveChild(ignored, steps) <==> !AllReaped(Run(ignored, steps).value)
    ensures !AllReaped(Run(ignored, steps).value) ==>
              var t := Run(ignored, steps + [Signal(SIGINT, true), WaitFails]);
              t.Some? && t.value.phase == Done(Interrupted) && !AllReaped(t.value)
  {
    var s := Run(ignored, steps).value;
    if AllReaped(s) {
      forall more | Run(ignored, steps + more).Some?
        ensures AllReaped(Run(ignored, steps + more).value)
      {
        StaysReaped(ignored, steps, more);
      }
    } else {
      var longer, t := Take(ignored, steps, s, Signal(SIGINT, true));
      longer, t := Take(ignored, longer, t, WaitFails);
      assert longer == steps + [Signal(SIGINT, true), WaitFails];
    }
  }

  lemma {:induction false} StaysReaped(ignored: bool, steps: seq<Step>, more: seq<Step>)
    requires Run(ignored, steps).Some? && Run(ignored, steps + more).Some?
    requires var s := Run(ignored, steps).value; (s.phase == FinalWait || s.phase.Done?) && AllReaped(s)
    ensures var t := Run(ignored, steps + more).value; (t.phase == FinalWait || t.phase.Done?) && AllReaped(t)
  {
    if more == [] {
      assert steps + more == steps;
    } else {
      var n := |more| - 1;
      assert (steps + more)[..|steps| + n] == steps + more[..n];
      StaysReaped(ignored, steps, more[..n]);
    }
  }

  lemma RunSnoc(ignored: bool, steps: seq<Step>, step: Step)
    requires Run(ignored, steps).Some? && Enabled(Run(ignored, steps).value, step)
    ensures Run(ignored, steps + [step]) == Some(Next(Run(ignored, steps).value, step))
  {
    assert (steps + [step])[..|steps|] == steps;
  }

  lemma Take(ignored: bool, steps: seq<Step>, s: State, step: Step) returns (longer: seq<Step>, t: State)
    requires Run(ignored, steps) == Some(s) && Enabled(s, step)
    ensures longer == steps + [step] && t == Next(s, step) && Run(ignored, longer) == Some(t)
  {
    RunSnoc(ignored, steps, step);
    longer, t := steps + [step], Next(s, step);
  }

  /** A second interrupt while the helper is slow to end leaves it behind. */
  lemma InterruptLeavesHelperBehind() returns (steps: seq<Step>, t: State)
    ensures Run(false, steps) == Some(t) && t.phase.Done? && t.helper == Running && t.ret == 128 + SIGINT
  {
    assert Run(false, []) == Some(Init(false));
    hide Run;
    steps, t := Take(false, [], Init(false), ForkHelper(true));
    steps, t := Take(false, steps, t, ForkCommand(true));
    steps, t := Take(false, steps, t, Signal(SIGINT, true));
    steps, t := Take(false, steps, t, WaitpidFails);
    steps, t := Take(false, steps, t, Killpg(true));
    steps, t := Take(false, steps, t, Signal(SIGINT, true));
    steps, t := Take(false, steps, t, WaitFails);
  }
}
