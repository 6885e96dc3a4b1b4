/** The protocol of programs/helper.c by which any number of helpers share one
    socket path: a lock file, a stale socket to remove, exit handlers that run in
    reverse order, and processes that may be killed at any point. */
module SocketLock {
  import opened Wrappers

  type Pid = nat
  type Inode = nat

  datatype Pc =
    | Start      // create_socket_lockfile() not entered
    | Opened     // open() has found or created the lock file, and not locked it
    | Locked     // lock held; its removal at exit not registered
    | Guarded    // removal of the lock file registered
    | Cleared    // the path of the socket is free
    | Bound      // bind() done; removal of the socket not registered
    | Serving    // removal of the socket registered
    | Exiting    // exit() is running the handlers
    | Gone

  datatype Handler = RemoveLockfile | RemoveSocket

  /** `inode` is the lock file the process opened; `handlers` are in order of
      registration. */
  datatype Proc = Proc(pc: Pc, inode: Inode, handlers: seq<Handler>)

  /** The two directory entries, the lock file's inode and the process that bound
      the socket; who holds a lock on which inode; and the next free inode. */
  datatype State = State(procs: map<Pid, Proc>, lockfile: Option<Inode>, socket: Option<Pid>,
                         locks: map<Inode, Pid>, next: Inode)

  const INIT := State(map[], None, None, map[], 0)

  /** One step of one process. `ok` is false when a system call fails. */
  datatype Step =
    | Spawn(p: Pid)
    | Lookup(p: Pid)
    | Lock(p: Pid)
    | LockBusy(p: Pid)
    | RegisterLockfile(p: Pid, ok: bool)
    | ClearSocket(p: Pid, ok: bool)
    | Bind(p: Pid, ok: bool)
    | Ready(p: Pid, ok: bool)      // chmod() and atexit()
    | Exit(p: Pid)
    | RunHandler(p: Pid, ok: bool)
    | Finish(p: Pid)
    | Kill(p: Pid)

  function At(s: State, p: Pid): Pc {
    if p in s.procs then s.procs[p].pc else Gone
  }

  function Set(s: State, p: Pid, pc: Pc): State
    requires p in s.procs
  {
    s.(procs := s.procs[p := s.procs[p].(pc := pc)])
  }

  function Register(s: State, p: Pid, pc: Pc, h: Handler): State
    requires p in s.procs
  {
    s.(procs := s.procs[p := s.procs[p].(pc := pc, handlers := s.procs[p].handlers + [h])])
  }

  /** The end of a process: the kernel drops its locks and nothing else. */
  function End(s: State, p: Pid): State
    requires p in s.procs
  {
    Set(s, p, Gone).(locks := map i | i in s.locks && s.locks[i] != p :: s.locks[i])
  }

  function Next(s: State, step: Step): Option<State> {
    var p := step.p;
    match step
    case Spawn(_) =>
      if p in s.procs then None else Some(s.(procs := s.procs[p := Proc(Start, 0, [])]))
    case Lookup(_) =>
      if At(s, p) != Start then None
      else if s.lockfile.Some? then Some(s.(procs := s.procs[p := Proc(Opened, s.lockfile.value, [])]))
      else Some(s.(procs := s.procs[p := Proc(Opened, s.next, [])], lockfile := Some(s.next), next := s.next + 1))
    case Lock(_) =>
      if At(s, p) != Opened || s.procs[p].inode in s.locks then None
      else Some(Set(s, p, Locked).(locks := s.locks[s.procs[p].inode := p]))
    case LockBusy(_) =>
      if At(s, p) != Opened || s.procs[p].inode !in s.locks then None else Some(End(s, p))
    case RegisterLockfile(_, ok) =>
      if At(s, p) != Locked then None
      else Some(if ok then Register(s, p, Guarded, RemoveLockfile) else Set(s, p, Exiting))
    case ClearSocket(_, ok) =>
      if At(s, p) != Guarded then None
      else Some(if ok then Set(s, p, Cleared).(socket := None) else Set(s, p, Exiting))
    case Bind(_, ok) =>
      if At(s, p) != Cleared || (ok && s.socket.Some?) then None
      else Some(if ok then Set(s, p, Bound).(socket := Some(p)) else Set(s, p, Exiting))
    case Ready(_, ok) =>
      if At(s, p) != Bound then None
      else Some(if ok then Register(s, p, Serving, RemoveSocket) else Set(s, p, Exiting))
    case Exit(_) =>
      if At(s, p) != Serving then None else Some(Set(s, p, Exiting))
    case RunHandler(_, ok) =>
      if At(s, p) != Exiting || s.procs[p].handlers == [] then None
      else
        var n := |s.procs[p].handlers| - 1;
        var t := s.(procs := s.procs[p := s.procs[p].(handlers := s.procs[p].handlers[..n])]);
        Some(if !ok then t
             else if s.procs[p].handlers[n] == RemoveSocket then t.(socket := None)
             else t.(lockfile := None))
    case Finish(_) =>
      if At(s, p) != Exiting || s.procs[p].handlers != [] then None else Some(End(s, p))
    case Kill(_) =>
      if At(s, p) == Gone then None else Some(End(s, p))
  }

  /** From acquiring the lock until the lock file is removed, which the reverse
      order of the handlers puts after the removal of the socket. */
  predicate Critical(s: State, p: Pid) {
    At(s, p) in {Locked, Guarded, Cleared, Bound, Serving}
    || (At(s, p) == Exiting && RemoveLockfile in s.procs[p].handlers)
  }

  /** The path of the socket is this process's own. */
  predicate Owns(s: State, p: Pid) {
    At(s, p) in {Bound, Serving} || (At(s, p) == Exiting && RemoveSocket in s.procs[p].handlers)
  }

  ghost predicate HandlersMatch(x: Proc) {
    match x.pc
    case Start => x.handlers == []
    case Opened => x.handlers == []
    case Locked => x.handlers == []
    case Guarded => x.handlers == [RemoveLockfile]
    case Cleared => x.handlers == [RemoveLockfile]
    case Bound => x.handlers == [RemoveLockfile]
    case Serving => x.handlers == [RemoveLockfile, RemoveSocket]
    case Exiting => x.handlers == [] || x.handlers == [RemoveLockfile] || x.handlers == [RemoveLockfile, RemoveSocket]
    case Gone => true
  }

  ghost predicate ProcInv(s: State, p: Pid)
    requires p in s.procs
  {
    var x := s.procs[p];
    && HandlersMatch(x)
    && (x.pc !in {Start, Gone} ==> x.inode < s.next)
    && (Critical(s, p) ==> s.lockfile == Some(x.inode) && x.inode in s.locks && s.locks[x.inode] == p)
    && (Owns(s, p) ==> s.socket == Some(p))
    && (x.pc == Cleared ==> s.socket == None)
  }

  ghost predicate LockInv(s: State, i: Inode)
    requires i in s.locks
  {
    At(s, s.locks[i]) !in {Start, Opened, Gone} && s.procs[s.locks[i]].inode == i
  }

  /** Only a process that has called bind() is the one the socket belongs to. */
  ghost predicate SocketInv(s: State) {
    s.socket.Some? ==>
      && s.socket.value in s.procs
      && s.procs[s.socket.value].pc in {Bound, Serving, Exiting, Gone}
  }

  ghost predicate Inv(s: State) {
    && SocketInv(s)
    && (forall p :: p in s.procs ==> ProcInv(s, p))
    && (forall i :: i in s.locks ==> LockInv(s, i))
    && (s.lockfile.Some? ==> s.lockfile.value < s.next)
  }

  /** open() resolves the name and takes the lock as one step: the file locked is
      still the one the name leads to. */
  predicate Linked(s: State, step: Step) {
    step.Lock? && step.p in s.procs ==> s.lockfile == Some(s.procs[step.p].inode)
  }

  lemma OneCritical(s: State, p: Pid, q: Pid)
    requires Inv(s) && Critical(s, p) && Critical(s, q)
    ensures p == q
  {
  }

  lemma HandlerKeepsItself(s: State, step: Step, t: State)
    requires Inv(s) && Next(s, step) == Some(t) && step.RunHandler?
    ensures step.p in t.procs && ProcInv(t, step.p)
  {
    assert ProcInv(s, step.p);
    var handlers := s.procs[step.p].handlers;
    assert handlers == [RemoveLockfile] ==> t.procs[step.p].handlers == [];
    assert handlers == [RemoveLockfile, RemoveSocket] ==> t.procs[step.p].handlers == [RemoveLockfile];
  }

  lemma LockingKeepsItself(s: State, step: Step, t: State)
    requires Inv(s) && Next(s, step) == Some(t) && Linked(s, step)
    requires step.Spawn? || step.Lookup? || step.Lock? || step.LockBusy? || step.RegisterLockfile?
    ensures step.p in t.procs && ProcInv(t, step.p)
  {
    assert step.p in s.procs ==> ProcInv(s, step.p);
  }

  lemma StepKeepsItself(s: State, step: Step, t: State)
    requires Inv(s) && Next(s, step) == Some(t) && Linked(s, step)
    ensures step.p in t.procs && ProcInv(t, step.p)
  {
    if step.RunHandler? {
      HandlerKeepsItself(s, step, t);
    } else if step.Spawn? || step.Lookup? || step.Lock? || step.LockBusy? || step.RegisterLockfile? {
      LockingKeepsItself(s, step, t);
    } else {
      assert step.p in s.procs ==> ProcInv(s, step.p);
    }
  }

  lemma HandlerMeansCritical(s: State, p: Pid)
    requires Inv(s) && At(s, p) == Exiting && s.procs[p].handlers != []
    ensures Critical(s, p)
  {
    assert ProcInv(s, p);
  }

  /** A process that is not inside touches neither directory entry once one that
      is inside has its lock, and never the lock itself. */
  lemma OutsidersTouchNothing(s: State, step: Step, t: State, i: Inode)
    requires Inv(s) && Next(s, step) == Some(t) && Linked(s, step)
    requires s.lockfile == Some(i) && i in s.locks && s.locks[i] != step.p && !Critical(s, step.p)
    ensures t.lockfile == s.lockfile && t.socket == s.socket && i in t.locks && t.locks[i] == s.locks[i]
  {
    if step.RunHandler? {
      HandlerMeansCritical(s, step.p);
    }
    hide Inv;
  }

  lemma StepKeepsOther(s: State, step: Step, t: State, q: Pid)
    requires Inv(s) && Next(s, step) == Some(t) && Linked(s, step) && q in t.procs && q != step.p
    ensures ProcInv(t, q)
  {
    hide Next, Linked, LockInv, SocketInv;
    OtherUnchanged(s, step, t, q);
    assert ProcInv(s, q);
    if Critical(s, q) {
      assert !Critical(s, step.p) by {
        if Critical(s, step.p) {
          OneCritical(s, step.p, q);
        }
      }
      OutsidersTouchNothing(s, step, t, s.procs[q].inode);
    }
  }

  lemma OtherUnchanged(s: State, step: Step, t: State, q: Pid)
    requires Next(s, step) == Some(t) && q in t.procs && q != step.p
    ensures q in s.procs && t.procs[q] == s.procs[q] && s.next <= t.next
  {
  }

  lemma StepKeepsLock(s: State, step: Step, t: State, i: Inode)
    requires Inv(s) && Next(s, step) == Some(t) && Linked(s, step) && i in t.locks
    ensures LockInv(t, i)
  {
    hide SocketInv, ProcInv;
    assert i in s.locks ==> LockInv(s, i);
  }

  lemma StepKeepsSocket(s: State, step: Step, t: State)
    requires SocketInv(s) && Next(s, step) == Some(t)
    ensures SocketInv(t)
  {
  }

  lemma StepKeepsInv(s: State, step: Step, t: State)
    requires Inv(s) && Next(s, step) == Some(t) && Linked(s, step)
    ensures Inv(t)
  {
    StepKeepsSocket(s, step, t);
    forall q | q in t.procs
      ensures ProcInv(t, q)
    {
      if q == step.p {
        StepKeepsItself(s, step, t);
      } else {
        StepKeepsOther(s, step, t, q);
      }
    }
    forall i | i in t.locks
      ensures LockInv(t, i)
    {
      StepKeepsLock(s, step, t, i);
    }
  }

  /** The state after a run, if every step of it can be taken. */
  function Run(s: State, steps: seq<Step>): Option<State>
    decreases |steps|
  {
    if steps == [] then Some(s)
    else
      match Next(s, steps[0])
      case None => None
      case Some(t) => Run(t, steps[1..])
  }

  predicate AtomicOpens(s: State, steps: seq<Step>)
    decreases |steps|
  {
    steps == [] ||
    (&& Linked(s, steps[0])
     && var t := Next(s, steps[0]);
     t.Some? ==> AtomicOpens(t.value, steps[1..]))
  }

  lemma {:induction false} RunKeepsInv(s: State, steps: seq<Step>, t: State)
    requires Inv(s) && Run(s, steps) == Some(t) && AtomicOpens(s, steps)
    ensures Inv(t)
    decreases |steps|
  {
    if steps != [] {
      var mid := Next(s, steps[0]).value;
      StepKeepsInv(s, steps[0], mid);
      RunKeepsInv(mid, steps[1..], t);
    }
  }

  /** The process has the lock of the file that the name of the lock file leads
      to, registered or not. */
  predicate HoldsCurrent(s: State, q: Pid) {
    s.lockfile.Some? && s.lockfile.value in s.locks && s.locks[s.lockfile.value] == q
  }

  /** However many helpers start, fail, exit and are killed, in any order, at most
      one is between acquiring the lock and removing its lock file; and a helper
      whose socket is registered has the path, and the lock that keeps it. */
  lemma Exclusion(steps: seq<Step>, t: State, p: Pid, q: Pid)
    requires Run(INIT, steps) == Some(t) && AtomicOpens(INIT, steps)
    ensures Critical(t, p) && Critical(t, q) ==> p == q
    ensures Owns(t, p) ==> t.socket == Some(p) && HoldsCurrent(t, p)
    ensures At(t, p) == Serving ==> Owns(t, p)
  {
    RunKeepsInv(INIT, steps, t);
    if p in t.procs {
      assert ProcInv(t, p);
    }
    if Critical(t, p) && Critical(t, q) {
      OneCritical(t, p, q);
    }
  }

  /** No step takes the path away from the socket of a process that holds the
      current lock, except one of its own exit handlers. */
  lemma SocketIsSafe(s: State, step: Step, t: State, q: Pid)
    requires Inv(s) && Next(s, step) == Some(t) && Linked(s, step)
    requires s.socket == Some(q) && HoldsCurrent(s, q)
    ensures t.socket != s.socket ==> step == RunHandler(q, true)
    ensures step.p != q ==> t.socket == Some(q) && HoldsCurrent(t, q)
  {
    assert ProcInv(s, q) && LockInv(s, s.lockfile.value);
    assert step.p in s.procs ==> ProcInv(s, step.p);
    assert step.p != q ==> !Critical(s, step.p);
  }

  ghost predicate OfOthers(steps: seq<Step>, q: Pid) {
    forall step :: step in steps ==> step.p != q
  }

  lemma {:induction false} OthersKeepSocket(s: State, steps: seq<Step>, t: State, q: Pid)
    requires Inv(s) && Run(s, steps) == Some(t) && AtomicOpens(s, steps) && OfOthers(steps, q)
    requires s.socket == Some(q) && HoldsCurrent(s, q)
    ensures t.socket == Some(q)
    decreases |steps|
  {
    hide Next, Linked, Inv, HoldsCurrent;
    if steps != [] {
      var mid := Next(s, steps[0]).value;
      SocketIsSafe(s, steps[0], mid, q);
      StepKeepsInv(s, steps[0], mid);
      OthersKeepSocket(mid, steps[1..], t, q);
    }
  }

  /** A process that is not in the table. */
  lemma {:induction false} FreshPid(procs: set<Pid>) returns (p: Pid)
    ensures forall q :: q in procs ==> q < p
    decreases |procs|
  {
    p := 0;
    if procs != {} {
      var q :| q in procs;
      var r := FreshPid(procs - {q});
      p := if r <= q then q + 1 else r;
      assert forall x :: x in procs ==> x == q || x in procs - {q};
    }
  }

  /** Killing whoever holds the current lock frees it. */
  lemma KillHolder(s: State) returns (steps: seq<Step>, t: State)
    requires s.lockfile.Some? && s.lockfile.value in s.locks ==> At(s, s.locks[s.lockfile.value]) != Gone
    ensures Run(s, steps) == Some(t) && AtomicOpens(s, steps)
    ensures t.lockfile == s.lockfile && t.socket == s.socket && t.next == s.next && t.procs.Keys == s.procs.Keys
    ensures s.lockfile.Some? ==> s.lockfile.value !in t.locks
    ensures forall i :: i in t.locks ==> i in s.locks
    ensures forall step :: step in steps ==> HoldsCurrent(s, step.p)
    ensures forall p :: !HoldsCurrent(s, p) ==>
                          (p in t.procs <==> p in s.procs) && (p in s.procs ==> t.procs[p] == s.procs[p])
  {
    steps, t := [], s;
    if s.lockfile.Some? && s.lockfile.value in s.locks {
      assert Run(s, []) == Some(s) && AtomicOpens(s, []);
      hide Run, AtomicOpens;
      steps, t := Take(s, [], s, Kill(s.locks[s.lockfile.value]));
    }
  }

  /** A new helper that takes the path of the socket from q, when q does not hold
      the current lock. */
  lemma PathCanBeTaken(s: State, q: Pid) returns (steps: seq<Step>, t: State)
    requires Inv(s) && !HoldsCurrent(s, q)
    ensures Run(s, steps) == Some(t) && AtomicOpens(s, steps) && OfOthers(steps, q) && t.socket != Some(q)
  {
    if s.lockfile.Some? && s.lockfile.value in s.locks {
      assert LockInv(s, s.lockfile.value);
    }
    var p := FreshPid(s.procs.Keys + {q});
    var kill, mid := KillHolder(s);
    hide Next, Linked;
    RunKeepsInv(s, kill, mid);
    assert p !in s.procs.Keys && p != q by {
      assert forall x :: x in s.procs.Keys + {q} ==> x < p;
    }
    var more;
    more, t := StaleFilesNeverBlock(mid, p);
    RunConcat(s, kill, mid, more);
    steps := kill + more;
    RunKeepsInv(mid, more, t);
    hide Run, AtomicOpens;
    assert ProcInv(t, p);
  }

  lemma {:induction false} RunConcat(s: State, a: seq<Step>, mid: State, b: seq<Step>)
    requires Run(s, a) == Some(mid)
    ensures Run(s, a + b) == Run(mid, b)
    ensures AtomicOpens(s, a) && AtomicOpens(mid, b) ==> AtomicOpens(s, a + b)
    decreases |a|
  {
    hide Next, Linked;
    if a == [] {
      assert a + b == b;
    } else {
      assert (a + b)[1..] == a[1..] + b;
      RunConcat(Next(s, a[0]).value, a[1..], mid, b);
    }
  }

  /** Whatever the other processes do, the path stays with the socket of q exactly
      when q holds the current lock: registered handlers do not matter. */
  lemma SocketIsSafeIffLockCurrent(s: State, q: Pid)
    requires Inv(s) && s.socket == Some(q)
    ensures (forall steps, t ::
               Run(s, steps) == Some(t) && AtomicOpens(s, steps) && OfOthers(steps, q) ==> t.socket == Some(q))
       <==> HoldsCurrent(s, q)
  {
    if HoldsCurrent(s, q) {
      forall steps, t | Run(s, steps) == Some(t) && AtomicOpens(s, steps) && OfOthers(steps, q)
        ensures t.socket == Some(q)
      {
        OthersKeepSocket(s, steps, t, q);
      }
    } else {
      var steps, t := PathCanBeTaken(s, q);
    }
  }

  /** What AtomicOpens assumes of a lock is exactly what exclusion needs: once a
      process has locked a file, no later run with atomic opens has two helpers
      inside if and only if the name still led to that file. */
  lemma ExclusionIffLinked(s: State, p: Pid, u: State)
    requires Inv(s) && Next(s, Lock(p)) == Some(u)
    ensures Linked(s, Lock(p))
       <==> (forall steps, t, a, b ::
               Run(u, steps) == Some(t) && AtomicOpens(u, steps) && Critical(t, a) && Critical(t, b) ==> a == b)
  {
    if Linked(s, Lock(p)) {
      StepKeepsInv(s, Lock(p), u);
      forall steps, t, a, b |
        Run(u, steps) == Some(t) && AtomicOpens(u, steps) && Critical(t, a) && Critical(t, b)
        ensures a == b
      {
        RunKeepsInv(u, steps, t);
        OneCritical(t, a, b);
      }
    } else {
      var steps, t, q := SecondGetsIn(s, p, u);
    }
  }

  /** After a lock on a file that has lost its name, a new helper gets in too. */
  lemma SecondGetsIn(s: State, p: Pid, u: State) returns (steps: seq<Step>, t: State, q: Pid)
    requires Inv(s) && Next(s, Lock(p)) == Some(u) && !Linked(s, Lock(p))
    ensures Run(u, steps) == Some(t) && AtomicOpens(u, steps) && q != p && Critical(t, p) && Critical(t, q)
  {
    assert ProcInv(s, p);
    forall i | i in s.locks
      ensures i < s.next && LockInv(s, i)
    {
      LocksAreOnOldFiles(s, i);
    }
    hide ProcInv, Inv;
    q := FreshPid(s.procs.Keys);
    var kill, mid := KillHolder(u);
    assert q !in s.procs.Keys;
    hide Next, Linked;
    var more;
    more, t := Open(mid, q);
    RunConcat(u, kill, mid, more);
    steps := kill + more;
  }

  /** The lock file that p opened as inode i has its name only while p, which has
      registered its removal, has still to remove it. */
  ghost predicate CleansLockfile(s: State, p: Pid, i: Inode) {
    && p in s.procs && s.procs[p].inode == i && i < s.next
    && s.procs[p].pc in {Guarded, Cleared, Bound, Serving, Exiting, Gone}
    && (s.lockfile == Some(i) && s.procs[p].pc in {Exiting, Gone} ==>
          s.procs[p].pc == Exiting && RemoveLockfile in s.procs[p].handlers)
  }

  /** The same for the socket of a process that has served. */
  ghost predicate CleansSocket(s: State, p: Pid) {
    && p in s.procs && s.procs[p].pc in {Serving, Exiting, Gone}
    && (s.socket == Some(p) && s.procs[p].pc != Serving ==>
          s.procs[p].pc == Exiting && RemoveSocket in s.procs[p].handlers)
  }

  lemma HandlerCleans(s: State, t: State, p: Pid)
    requires Inv(s) && Next(s, RunHandler(p, true)) == Some(t)
    ensures forall i :: CleansLockfile(s, p, i) ==> CleansLockfile(t, p, i)
    ensures CleansSocket(s, p) ==> CleansSocket(t, p)
  {
    assert ProcInv(s, p);
    var handlers := s.procs[p].handlers;
    assert handlers == [RemoveLockfile] ==> t.procs[p].handlers == [];
    assert handlers == [RemoveLockfile, RemoveSocket] ==> t.procs[p].handlers == [RemoveLockfile];
  }

  lemma StepCleans(s: State, step: Step, t: State, p: Pid, i: Inode)
    requires Inv(s) && Next(s, step) == Some(t) && step != Kill(p) && step != RunHandler(p, false)
    ensures CleansLockfile(s, p, i) ==> CleansLockfile(t, p, i)
    ensures CleansSocket(s, p) ==> CleansSocket(t, p)
  {
    if step == RunHandler(p, true) {
      HandlerCleans(s, t, p);
    } else if step.p == p {
      assert p in s.procs ==> ProcInv(s, p);
      hide LockInv, SocketInv;
    } else if p in s.procs {
      OtherUntouched(s, step, t, p);
      hide Next, Inv;
    }
  }

  /** The steps of others neither change p nor give its files back. */
  lemma OtherUntouched(s: State, step: Step, t: State, p: Pid)
    requires Next(s, step) == Some(t) && step.p != p && p in s.procs
    ensures p in t.procs && t.procs[p] == s.procs[p] && s.next <= t.next
    ensures t.socket == Some(p) ==> s.socket == Some(p)
    ensures forall i :: i < s.next && t.lockfile == Some(i) ==> s.lockfile == Some(i)
  {
  }

  ghost predicate ExitsCleanly(steps: seq<Step>, p: Pid) {
    Kill(p) !in steps && RunHandler(p, false) !in steps
  }

  lemma {:induction false} RunCleans(s: State, steps: seq<Step>, t: State, p: Pid, i: Inode)
    requires Inv(s) && Run(s, steps) == Some(t) && AtomicOpens(s, steps) && ExitsCleanly(steps, p)
    ensures CleansLockfile(s, p, i) ==> CleansLockfile(t, p, i)
    ensures CleansSocket(s, p) ==> CleansSocket(t, p)
    decreases |steps|
  {
    hide Next, Linked, Inv, CleansLockfile, CleansSocket;
    if steps != [] {
      var mid := Next(s, steps[0]).value;
      StepCleans(s, steps[0], mid, p, i);
      StepKeepsInv(s, steps[0], mid);
      RunCleans(mid, steps[1..], t, p, i);
    }
  }

  /** A helper that ends neither by a kill nor with a removal that fails leaves no
      lock file behind once it has registered its removal, wherever it fails after
      that; and if it has served it leaves no socket behind. */
  lemma ExitRemovesBoth(s: State, steps: seq<Step>, t: State, p: Pid)
    requires Inv(s) && At(s, p) in {Guarded, Cleared, Bound, Serving}
    requires Run(s, steps) == Some(t) && AtomicOpens(s, steps) && ExitsCleanly(steps, p)
    ensures At(t, p) == Gone ==> t.lockfile != Some(s.procs[p].inode)
    ensures At(s, p) == Serving && At(t, p) == Gone ==> t.socket != Some(p)
  {
    assert ProcInv(s, p);
    RunCleans(s, steps, t, p, s.procs[p].inode);
  }

  /** In every run, bind() never finds the path in use. */
  lemma BindFindsPathFree(steps: seq<Step>, s: State, p: Pid)
    requires Run(INIT, steps) == Some(s) && AtomicOpens(INIT, steps) && At(s, p) == Cleared
    ensures Next(s, Bind(p, true)).Some?
  {
    RunKeepsInv(INIT, steps, s);
    assert ProcInv(s, p);
  }

  /** In every run, open() reports the lock as taken only when a live process
      holds it, so nothing that a crash leaves behind does. */
  lemma BusyMeansHeldByLive(steps: seq<Step>, s: State, p: Pid)
    requires Run(INIT, steps) == Some(s) && AtomicOpens(INIT, steps) && Next(s, LockBusy(p)).Some?
    ensures exists q :: q in s.procs && At(s, q) !in {Start, Opened, Gone} && s.locks[s.procs[p].inode] == q
  {
    RunKeepsInv(INIT, steps, s);
    var i := s.procs[p].inode;
    assert LockInv(s, i);
  }

  lemma {:induction false} RunSnoc(s: State, steps: seq<Step>, t: State, step: Step)
    requires Run(s, steps) == Some(t) && Next(t, step).Some?
    ensures Run(s, steps + [step]) == Next(t, step)
    ensures AtomicOpens(s, steps) && Linked(t, step) ==> AtomicOpens(s, steps + [step])
    decreases |steps|
  {
    hide Next, Linked;
    if steps == [] {
      assert ([step])[1..] == [];
    } else {
      assert (steps + [step])[1..] == steps[1..] + [step];
      RunSnoc(Next(s, steps[0]).value, steps[1..], t, step);
    }
  }

  /** A run that grows step by step. */
  lemma Take(s: State, steps: seq<Step>, t: State, step: Step) returns (longer: seq<Step>, u: State)
    requires Run(s, steps) == Some(t) && Next(t, step).Some?
    ensures longer == steps + [step] && u == Next(t, step).value && Run(s, longer) == Some(u)
    ensures AtomicOpens(s, steps) && Linked(t, step) ==> AtomicOpens(s, longer)
  {
    RunSnoc(s, steps, t, step);
    longer, u := steps + [step], Next(t, step).value;
  }

  lemma LocksAreOnOldFiles(s: State, i: Inode)
    requires Inv(s) && i in s.locks
    ensures i < s.next
  {
    assert LockInv(s, i);
    assert ProcInv(s, s.locks[i]);
  }

  /** A new helper can start whatever files are left, as long as no process holds
      the lock of the current lock file. */
  lemma StaleFilesNeverBlock(s: State, p: Pid) returns (steps: seq<Step>, t: State)
    requires Inv(s) && p !in s.procs
    requires s.lockfile.Some? ==> s.lockfile.value !in s.locks
    ensures (forall step :: step in steps ==> step.p == p) && AtomicOpens(s, steps)
    ensures Run(s, steps) == Some(t) && At(t, p) == Serving
  {
    forall i | i in s.locks
      ensures i < s.next
    {
      LocksAreOnOldFiles(s, i);
    }
    hide Run, AtomicOpens, Inv, Next, Linked;
    steps, t := Open(s, p);
    steps, t := Serve(s, steps, t, p);
  }

  /** A helper that holds the lock goes on to serve. */
  lemma Serve(s: State, steps: seq<Step>, t: State, p: Pid) returns (longer: seq<Step>, u: State)
    requires Run(s, steps) == Some(t) && At(t, p) == Locked && AtomicOpens(s, steps)
    ensures longer == steps + [RegisterLockfile(p, true), ClearSocket(p, true), Bind(p, true), Ready(p, true)]
    ensures Run(s, longer) == Some(u) && At(u, p) == Serving && AtomicOpens(s, longer)
  {
    hide Run, AtomicOpens;
    longer, u := Take(s, steps, t, RegisterLockfile(p, true));
    longer, u := Take(s, longer, u, ClearSocket(p, true));
    longer, u := Take(s, longer, u, Bind(p, true));
    longer, u := Take(s, longer, u, Ready(p, true));
  }

  /** A new helper finds or creates the lock file and locks it. */
  lemma Open(s: State, p: Pid) returns (steps: seq<Step>, t: State)
    requires p !in s.procs && s.next !in s.locks
    requires s.lockfile.Some? ==> s.lockfile.value !in s.locks
    ensures steps == [Spawn(p), Lookup(p), Lock(p)] && AtomicOpens(s, steps)
    ensures Run(s, steps) == Some(t)
    ensures var i := if s.lockfile.Some? then s.lockfile.value else s.next;
            t == State(s.procs[p := Proc(Locked, i, [])], Some(i), s.socket, s.locks[i := p],
                       if s.lockfile.Some? then s.next else s.next + 1)
  {
    assert Run(s, []) == Some(s) && AtomicOpens(s, []);
    hide Run, AtomicOpens;
    steps, t := Take(s, [], s, Spawn(p));
    steps, t := Take(s, steps, t, Lookup(p));
    steps, t := Take(s, steps, t, Lock(p));
  }

  lemma FirstHelper() returns (steps: seq<Step>, t: State)
    ensures Run(INIT, steps) == Some(t) && AtomicOpens(INIT, steps)
    ensures t == State(map[0 := Proc(Guarded, 0, [RemoveLockfile])], Some(0), None, map[0 := 0], 1)
  {
    hide Run, AtomicOpens;
    assert [] + [RemoveLockfile] == [RemoveLockfile];
    steps, t := Open(INIT, 0);
    steps, t := Take(INIT, steps, t, RegisterLockfile(0, true));
  }

  /** Without the atomicity of open(), two helpers end up inside: one locks the
      file that another has just unlinked, and a third creates a new one. */
  lemma SplitOpenAdmitsTwo() returns (steps: seq<Step>, t: State)
    ensures Run(INIT, steps) == Some(t) && Critical(t, 1) && Critical(t, 2)
  {
    hide Run, AtomicOpens, Linked;
    assert [RemoveLockfile][..0] == [];
    steps, t := FirstHelper();
    steps, t := Take(INIT, steps, t, Spawn(1));
    steps, t := Take(INIT, steps, t, Lookup(1));
    steps, t := Take(INIT, steps, t, ClearSocket(0, false));
    assert t == State(map[0 := Proc(Exiting, 0, [RemoveLockfile]), 1 := Proc(Opened, 0, [])],
                      Some(0), None, map[0 := 0], 1);
    steps, t := Take(INIT, steps, t, RunHandler(0, true));
    steps, t := Take(INIT, steps, t, Finish(0));
    assert t == State(map[0 := Proc(Gone, 0, []), 1 := Proc(Opened, 0, [])], None, None, map[], 1);
    steps, t := Take(INIT, steps, t, Lock(1));
    steps, t := Take(INIT, steps, t, Spawn(2));
    steps, t := Take(INIT, steps, t, Lookup(2));
    steps, t := Take(INIT, steps, t, Lock(2));
  }

  /** A helper that fails after bind() and before registering the removal of its
      socket can lose that socket to a new helper while it is still exiting. */
  lemma ExitingHelperMayLoseItsSocket() returns (steps: seq<Step>, t: State)
    ensures AtomicOpens(INIT, steps) && Run(INIT, steps) == Some(t)
    ensures t.socket == Some(0) && At(t, 0) == Exiting && !Owns(t, 0) && !Critical(t, 0)
    ensures Next(t, ClearSocket(1, true)).Some? && Next(t, ClearSocket(1, true)).value.socket == None
  {
    hide Run, AtomicOpens;
    assert [RemoveLockfile][..0] == [];
    steps, t := FirstHelper();
    steps, t := Take(INIT, steps, t, ClearSocket(0, true));
    steps, t := Take(INIT, steps, t, Bind(0, true));
    assert t == State(map[0 := Proc(Bound, 0, [RemoveLockfile])], Some(0), Some(0), map[0 := 0], 1);
    steps, t := Take(INIT, steps, t, Ready(0, false));
    steps, t := Take(INIT, steps, t, RunHandler(0, true));
    assert t == State(map[0 := Proc(Exiting, 0, [])], None, Some(0), map[0 := 0], 1);
    steps, t := Take(INIT, steps, t, Spawn(1));
    steps, t := Take(INIT, steps, t, Lookup(1));
    steps, t := Take(INIT, steps, t, Lock(1));
    steps, t := Take(INIT, steps, t, RegisterLockfile(1, true));
  }
}
