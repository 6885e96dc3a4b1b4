/** The descriptors of programs/run.c: create_socketpair over any descriptor table,
    and the two forks that share out its ends. */
module Descriptors {
  /** HelperEnd and CommandEnd are fds[0] and fds[1] of socketpair(). */
  datatype File = Inherited(id: nat) | HelperEnd | CommandEnd
  type Table = map<nat, File>

  const HELPER_FD: nat := 3
  const COMMAND_FD: nat := 4

  ghost predicate Fresh(t: Table) {
    forall fd :: fd in t ==> t[fd].Inherited?
  }

  predicate StandardOpen(t: Table) { 0 in t && 1 in t && 2 in t }

  /** The lowest standard descriptor that is closed, if any, or 3. */
  function LowestClosed(t: Table): (fd: nat)
    ensures fd <= 3 && (fd < 3 ==> fd !in t) && forall k :: 0 <= k < fd ==> k in t
  {
    if 0 !in t then 0 else if 1 !in t then 1 else if 2 !in t then 2 else 3
  }

  /** What create_socketpair() makes of a table, one descriptor at a time: the
      ends are at 3 and 4, everything else is as it was, except that an end is
      also left at each of the two lowest standard descriptors that were closed. */
  ghost predicate Placed(was: Table, now: Table) {
    var first := LowestClosed(was);
    var second := LowestClosed(was[first := HelperEnd]);
    && HELPER_FD in now && now[HELPER_FD] == HelperEnd
    && COMMAND_FD in now && now[COMMAND_FD] == CommandEnd
    && (first < 3 ==> first in now && now[first] == HelperEnd)
    && (second < 3 ==> second in now && now[second] == CommandEnd)
    && forall fd :: fd !in {first, second, HELPER_FD, COMMAND_FD} ==>
                      (fd in now <==> fd in was) && (fd in was ==> now[fd] == was[fd])
  }

  class Process {
    var fds: Table
    const limit: nat   // RLIMIT_NOFILE

    constructor (fds: Table, limit: nat)
      ensures this.fds == fds && this.limit == limit
    {
      this.fds, this.limit := fds, limit;
    }

    /** close(): the error for a closed descriptor is ignored. */
    method Close(fd: nat)
      modifies this
      ensures fds == old(fds) - {fd}
    {
      fds := fds - {fd};
    }

    /** The lowest free descriptor, below the limit. */
    method Allocate(f: File) returns (ok: bool, fd: nat)
      modifies this
      ensures ok ==> fd !in old(fds) && fd < limit && fds == old(fds)[fd := f]
      ensures ok ==> forall k :: 0 <= k < fd ==> k in old(fds)
      ensures !ok ==> fds == old(fds) && forall k :: 0 <= k < limit ==> k in fds
    {
      fd := 0;
      while fd < limit && fd in fds
        modifies {}
        invariant fd <= limit && forall k :: 0 <= k < fd ==> k in fds
      {
        fd := fd + 1;
      }
      ok := fd < limit;
      if ok {
        fds := fds[fd := f];
      }
    }

    /** socketpair(). */
    method SocketPair() returns (ok: bool, fd0: nat, fd1: nat)
      modifies this
      ensures ok ==>
                && fd0 !in old(fds) && (forall k :: 0 <= k < fd0 ==> k in old(fds)) && fd0 < fd1 < limit
                && fd1 !in old(fds) && (forall k :: 0 <= k < fd1 && k != fd0 ==> k in old(fds))
                && fds == old(fds)[fd0 := HelperEnd][fd1 := CommandEnd]
      ensures !ok ==> forall j, k :: 0 <= j < k < limit ==> j in old(fds) || k in old(fds)
    {
      ghost var was := fds;
      ok, fd0 := Allocate(HelperEnd);
      fd1 := 0;
      if ok {
        ghost var one := fds;
        ok, fd1 := Allocate(CommandEnd);
        assert forall k :: k in one <==> k in was || k == fd0;
        if !ok {
          fds := fds - {fd0};
        }
      }
    }

    /** dup2(). */
    method Dup2(from: nat, to: nat) returns (ok: bool)
      modifies this
      ensures ok <==> from in old(fds) && to < limit
      ensures fds == if ok then old(fds)[to := old(fds)[from]] else old(fds)
    {
      ok := from in fds && to < limit;
      if ok {
        fds := fds[to := fds[from]];
      }
    }

    /** fork(): the child starts with a copy of the table. */
    method Fork() returns (child: Process)
      ensures fresh(child) && child.fds == fds && child.limit == limit
    {
      child := new Process(fds, limit);
    }
  }

  /** What the two lowest free descriptors and the two moves amount to. */
  lemma MovesPlace(was: Table, now: Table, fd0: nat, fd1: nat)
    requires Fresh(was) && fd0 < fd1
    requires var t := was - {HELPER_FD} - {COMMAND_FD};
             && fd0 !in t && (forall k :: 0 <= k < fd0 ==> k in t)
             && fd1 !in t && (forall k :: 0 <= k < fd1 && k != fd0 ==> k in t)
             && now == t[fd0 := HelperEnd][fd1 := CommandEnd][COMMAND_FD := CommandEnd][HELPER_FD := HelperEnd]
    ensures Placed(was, now)
  {
    var t := was - {HELPER_FD} - {COMMAND_FD};
    var first := LowestClosed(was);
    var second := LowestClosed(was[first := HelperEnd]);
    assert 3 !in t && 4 !in t;
    assert (0 in t <==> 0 in was) && (1 in t <==> 1 in was) && (2 in t <==> 2 in was);
    assert fd0 == first;
  }

  /** create_socketpair(): moving fds[1] first never destroys fds[0]. */
  method CreateSocketpair(p: Process) returns (ok: bool)
    requires Fresh(p.fds)
    modifies p
    ensures ok <==> p.limit > COMMAND_FD
    ensures ok ==> Placed(old(p.fds), p.fds)
  {
    p.Close(HELPER_FD);
    p.Close(COMMAND_FD);
    ghost var t := p.fds;
    var fd0, fd1;
    ok, fd0, fd1 := p.SocketPair();
    assert 3 !in t && 4 !in t;
    if !ok {
      return;
    }
    assert fd0 <= 3 && fd1 <= 4;
    ok := p.Dup2(fd1, COMMAND_FD);
    if !ok {
      return;
    }
    hide Placed, LowestClosed;
    ok := p.Dup2(fd0, HELPER_FD);
    MovesPlace(old(p.fds), p.fds, fd0, fd1);
  }

  /** Helper, command and runner hold only the ends that are theirs. */
  ghost predicate Separated(helper: Table, command: Table, runner: Table) {
    && (forall fd :: fd in helper ==> !helper[fd].CommandEnd?)
    && (forall fd :: fd in command ==> !command[fd].HelperEnd?)
    && (forall fd :: fd in runner ==> runner[fd].Inherited?)
  }

  /** start_helper() and start_command(), up to exec. */
  method StartBoth(p: Process) returns (helper: Process, command: Process)
    modifies p
    ensures fresh(helper) && fresh(command) && helper != command
    ensures helper.fds == old(p.fds) - {COMMAND_FD}
    ensures command.fds == old(p.fds) - {HELPER_FD}
    ensures p.fds == old(p.fds) - {HELPER_FD, COMMAND_FD}
  {
    helper := p.Fork();
    helper.Close(COMMAND_FD);
    p.Close(HELPER_FD);
    command := p.Fork();
    command.Close(HELPER_FD);
    p.Close(COMMAND_FD);
  }

  /** The ends are shared out as intended exactly when the standard descriptors
      were open; otherwise a copy of an end stays in all three processes. */
  lemma SeparatedIffStandardOpen(was: Table, now: Table)
    requires Fresh(was) && Placed(was, now)
    ensures Separated(now - {COMMAND_FD}, now - {HELPER_FD}, now - {HELPER_FD, COMMAND_FD}) <==> StandardOpen(was)
    ensures StandardOpen(was) ==> OthersUnchanged(was, now)
  {
    var first := LowestClosed(was);
    if first < 3 {
      var runner := now - {HELPER_FD, COMMAND_FD};
      assert first in runner && runner[first] == HelperEnd;
    }
  }

  /** Apart from the two socket descriptors the table is as it was. */
  ghost predicate OthersUnchanged(was: Table, now: Table) {
    forall fd :: fd !in {HELPER_FD, COMMAND_FD} ==> (fd in now <==> fd in was) && (fd in was ==> now[fd] == was[fd])
  }

  /** The whole sequence, from any table. */
  method Launch(p: Process) returns (ok: bool, helper: Process, command: Process)
    requires Fresh(p.fds)
    modifies p
    ensures ok <==> p.limit > COMMAND_FD
    ensures ok ==> (Separated(helper.fds, command.fds, p.fds) <==> StandardOpen(old(p.fds)))
    ensures ok && StandardOpen(old(p.fds)) ==>
              && OthersUnchanged(old(p.fds), helper.fds) && OthersUnchanged(old(p.fds), command.fds)
              && OthersUnchanged(old(p.fds), p.fds)
    ensures ok ==> HELPER_FD in helper.fds && helper.fds[HELPER_FD] == HelperEnd
    ensures ok ==> COMMAND_FD in command.fds && command.fds[COMMAND_FD] == CommandEnd
  {
    helper, command := p, p;
    ok := CreateSocketpair(p);
    if ok {
      SeparatedIffStandardOpen(old(p.fds), p.fds);
      helper, command := StartBoth(p);
    }
  }
}
