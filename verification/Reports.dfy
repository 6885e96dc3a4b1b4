/** The counters of programs/helper.c while it runs: both forwarding threads add to
    their own, one field at a time, and the main thread reports all ten of them,
    reading them one at a time and at any moment. */
module Reports {
  import opened Packets
  import opened Endpoints
  import opened HostToVm
  import opened StatsLog
  import V = VmToHost

  datatype Field = PacketCount | ByteCount | DropCount | FastCount | SlowCount

  /** The order in which report_stats() prints, and write_to_vm() adds. */
  const FIELDS: seq<Field> := [PacketCount, ByteCount, DropCount, FastCount, SlowCount]

  /** The order in which forward_from_vm() adds. */
  const VM_FIELDS: seq<Field> := [FastCount, SlowCount, PacketCount, ByteCount, DropCount]

  function Get(s: Stats, f: Field): nat {
    match f
    case PacketCount => s.packets
    case ByteCount => s.bytes
    case DropCount => s.drops
    case FastCount => s.fast
    case SlowCount => s.slow
  }

  /** One `+=` on one field. */
  function Add(s: Stats, f: Field, n: nat): Stats {
    match f
    case PacketCount => s.(packets := s.packets + n)
    case ByteCount => s.(bytes := s.bytes + n)
    case DropCount => s.(drops := s.drops + n)
    case FastCount => s.(fast := s.fast + n)
    case SlowCount => s.(slow := s.slow + n)
  }

  /** An addition a thread has still to make. */
  datatype Due = Due(f: Field, n: nat)

  function Dues(fields: seq<Field>, was: Stats, now: Stats): (dues: seq<Due>)
    requires AtMost(was, now)
    ensures |dues| == |fields|
  {
    seq(|fields|, i requires 0 <= i < |fields| => Due(fields[i], Get(now, fields[i]) - Get(was, fields[i])))
  }

  /** The counters once the additions are made. */
  function Settle(s: Stats, dues: seq<Due>): Stats
    decreases |dues|
  {
    if dues == [] then s else Settle(Add(s, dues[0].f, dues[0].n), dues[1..])
  }

  /** However the additions of a batch or turn are ordered, they lead to its totals. */
  lemma AdditionsReachTotals(was: Stats, now: Stats, fields: seq<Field>)
    requires AtMost(was, now) && (fields == FIELDS || fields == VM_FIELDS)
    ensures Settle(was, Dues(fields, was, now)) == now
  {
    var dues := Dues(fields, was, now);
    SettleFirst(was, dues);
    var s1 := Add(was, dues[0].f, dues[0].n);
    SettleFirst(s1, dues[1..]);
    var s2 := Add(s1, dues[1].f, dues[1].n);
    SettleFirst(s2, dues[2..]);
    var s3 := Add(s2, dues[2].f, dues[2].n);
    SettleFirst(s3, dues[3..]);
    var s4 := Add(s3, dues[3].f, dues[3].n);
    SettleFirst(s4, dues[4..]);
    hide Settle;
    assert dues[1..][1..] == dues[2..] && dues[2..][1..] == dues[3..] && dues[3..][1..] == dues[4..];
    assert Settle(was, dues) == Settle(s4, dues[4..]);
    assert dues[4..][1..] == [];
  }

  lemma SettleFirst(s: Stats, dues: seq<Due>)
    requires dues != []
    ensures Settle(s, dues) == Settle(Add(s, dues[0].f, dues[0].n), dues[1..])
    ensures dues[1..] == [] ==> Settle(s, dues) == Add(s, dues[0].f, dues[0].n)
  {
  }

  /** The helper: the counters in memory and what each thread is about to add to
      them, the calls on the socket, the packets that left and those read, the run
      of the vm's thread, the fields a report has read so far, and the reports. */
  datatype System = System(
    host: Stats, hostDue: seq<Due>, calls: Calls, sent: seq<Datagram>, taken: seq<Datagram>,
    vm: V.Run, vmDue: seq<Due>, vmEnded: bool,
    reporting: bool, time: real, read: seq<nat>, log: seq<Entry>)

  datatype Step =
    | HostBatch(bulk: bool, batch: seq<Datagram>, kept: seq<bool>, after: Calls)   // write_to_vm()
    | HostAdds
    | VmTurn(bulk: bool, turn: V.Turn)                                             // forward_from_vm()
    | VmAdds
    | StartReport(time: real)                                                      // report_stats()
    | ReadField

  /** The counter a report reads k-th. */
  function Counter(host: Stats, vm: Stats, k: nat): nat
    requires k < 10
  {
    if k < 5 then Get(host, FIELDS[k]) else Get(vm, FIELDS[k - 5])
  }

  function EntryOf(time: real, r: seq<nat>): Entry
    requires |r| == 10
  {
    Entry(time, Stats(r[0], r[1], r[2], r[3], r[4]), Stats(r[5], r[6], r[7], r[8], r[9]))
  }

  /** A batch of any size, with any outcome write_to_vm() may have, starts when the
      additions of the one before are made; so does a turn of forward_from_vm(). */
  ghost predicate Enabled(s: System, step: Step) {
    match step
    case HostBatch(bulk, batch, kept, after) =>
      s.hostDue == [] && |kept| == |batch| && Accounted(s.calls, after, bulk, |batch|, |Keep(batch, kept)|)
    case HostAdds => s.hostDue != []
    case VmTurn(_, _) => s.vmDue == [] && !s.vmEnded
    case VmAdds => s.vmDue != []
    case StartReport(_) => !s.reporting
    case ReadField => s.reporting && |s.read| < 10
  }

  lemma TurnNeverSubtracts(bulk: bool, turn: V.Turn, r: V.Run, cap: nat, m: nat)
    requires 0 < cap
    ensures AtMost(r.stats, V.OneTurn(bulk, turn, r, cap, m).s.stats)
  {
  }

  ghost function Next(s: System, step: Step, cap: nat, m: nat): System
    requires Enabled(s, step) && 0 < cap
  {
    match step
    case HostBatch(bulk, batch, kept, after) =>
      var out := Keep(batch, kept);
      s.(hostDue := Dues(FIELDS, s.host, CountBatch(s.host, s.calls, after, |batch|, out)),
         calls := after, sent := s.sent + out, taken := s.taken + batch)
    case HostAdds => s.(host := Add(s.host, s.hostDue[0].f, s.hostDue[0].n), hostDue := s.hostDue[1..])
    case VmTurn(bulk, turn) =>
      TurnNeverSubtracts(bulk, turn, s.vm, cap, m);
      var n := V.OneTurn(bulk, turn, s.vm, cap, m);
      s.(vm := n.s.(stats := s.vm.stats), vmDue := Dues(VM_FIELDS, s.vm.stats, n.s.stats), vmEnded := n.End?)
    case VmAdds =>
      s.(vm := s.vm.(stats := Add(s.vm.stats, s.vmDue[0].f, s.vmDue[0].n)), vmDue := s.vmDue[1..])
    case StartReport(time) => s.(reporting := true, time := time, read := [])
    case ReadField =>
      var read := s.read + [Counter(s.host, s.vm.stats, |s.read|)];
      if |read| < 10 then s.(read := read)
      else s.(reporting := false, read := [], log := s.log + [EntryOf(s.time, read)])
  }

  /** A helper that has just started, with any stream waiting. */
  ghost predicate Start(s: System) {
    && s.host == s.vm.stats == Stats(0, 0, 0, 0, 0) && s.calls == Calls(0, 0, 0, 0, 0, false)
    && s.hostDue == [] && s.vmDue == [] && !s.vmEnded && s.sent == s.taken == []
    && s.vm.handed == [] && s.vm.accepted == 0
    && !s.reporting && s.read == [] && s.log == []
  }

  ghost predicate Reaches(s: System, steps: seq<Step>, t: System, cap: nat, m: nat)
    requires 0 < cap
    decreases |steps|
  {
    if steps == [] then s == t
    else
      var n := |steps| - 1;
      exists mid :: Reaches(s, steps[..n], mid, cap, m) && Enabled(mid, steps[n]) && t == Next(mid, steps[n], cap, m)
  }

  /** Each counter is at least what the last report says, and the fields the
      current report has read lie in between. */
  ghost predicate ReportInv(s: System) {
    && Growing(s.log)
    && |s.read| < 10
    && (forall k :: 0 <= k < |s.read| ==> s.read[k] <= Counter(s.host, s.vm.stats, k))
    && (s.log != [] ==>
          var last := s.log[|s.log| - 1];
          && (forall k :: 0 <= k < |s.read| ==> Counter(last.host, last.vm, k) <= s.read[k])
          && (forall k :: |s.read| <= k < 10 ==> Counter(last.host, last.vm, k) <= Counter(s.host, s.vm.stats, k)))
  }

  lemma CountersOnlyGrow(s: System, step: Step, k: nat, cap: nat, m: nat)
    requires Enabled(s, step) && 0 < cap && k < 10
    ensures var t := Next(s, step, cap, m); Counter(s.host, s.vm.stats, k) <= Counter(t.host, t.vm.stats, k)
  {
    hide Accounted, CountBatch, Keep, Dues;
  }

  lemma EntryCounter(time: real, r: seq<nat>, k: nat)
    requires |r| == 10 && k < 10
    ensures Counter(EntryOf(time, r).host, EntryOf(time, r).vm, k) == r[k]
  {
  }

  /** Entries compare as their ten counters do. */
  lemma EntriesGrow(a: Entry, b: Entry)
    requires forall k :: 0 <= k < 10 ==> Counter(a.host, a.vm, k) <= Counter(b.host, b.vm, k)
    ensures AtMost(a.host, b.host) && AtMost(a.vm, b.vm)
  {
    assert Counter(a.host, a.vm, 0) <= Counter(b.host, b.vm, 0) && Counter(a.host, a.vm, 1) <= Counter(b.host, b.vm, 1);
    assert Counter(a.host, a.vm, 2) <= Counter(b.host, b.vm, 2) && Counter(a.host, a.vm, 3) <= Counter(b.host, b.vm, 3);
    assert Counter(a.host, a.vm, 4) <= Counter(b.host, b.vm, 4) && Counter(a.host, a.vm, 5) <= Counter(b.host, b.vm, 5);
    assert Counter(a.host, a.vm, 6) <= Counter(b.host, b.vm, 6) && Counter(a.host, a.vm, 7) <= Counter(b.host, b.vm, 7);
    assert Counter(a.host, a.vm, 8) <= Counter(b.host, b.vm, 8) && Counter(a.host, a.vm, 9) <= Counter(b.host, b.vm, 9);
  }

  lemma ReadKeepsReportInv(s: System, cap: nat, m: nat)
    requires ReportInv(s) && Enabled(s, ReadField) && 0 < cap
    ensures ReportInv(Next(s, ReadField, cap, m))
  {
    hide Counter, EntryOf;
    var read := s.read + [Counter(s.host, s.vm.stats, |s.read|)];
    if |read| == 10 {
      var e := EntryOf(s.time, read);
      forall k | 0 <= k < 10
        ensures Counter(e.host, e.vm, k) == read[k]
      {
        EntryCounter(s.time, read, k);
      }
      if s.log != [] {
        EntriesGrow(s.log[|s.log| - 1], e);
      }
    }
  }

  lemma StepKeepsReportInv(s: System, step: Step, cap: nat, m: nat)
    requires ReportInv(s) && Enabled(s, step) && 0 < cap
    ensures ReportInv(Next(s, step, cap, m))
  {
    if step.ReadField? {
      ReadKeepsReportInv(s, cap, m);
    } else {
      var t := Next(s, step, cap, m);
      forall k | 0 <= k < 10
        ensures Counter(s.host, s.vm.stats, k) <= Counter(t.host, t.vm.stats, k)
      {
        CountersOnlyGrow(s, step, k, cap, m);
      }
      hide Counter, Accounted, CountBatch, Keep, Dues, Growing;
    }
  }

  /** The additions still due lead to counters that account for every packet. */
  ghost predicate TotalsInv(s: System) {
    && AccountFor(Settle(s.host, s.hostDue), s.calls, s.sent, s.taken)
    && Settle(s.vm.stats, s.vmDue).packets == s.vm.accepted <= |s.vm.handed|
  }

  lemma StepKeepsTotalsInv(s: System, step: Step, cap: nat, m: nat)
    requires TotalsInv(s) && Enabled(s, step) && 0 < cap
    ensures TotalsInv(Next(s, step, cap, m))
  {
    hide AccountFor, CountBatch, Keep, Get;
    if step.HostBatch? {
      var out := Keep(step.batch, step.kept);
      BatchKeepsAccounts(s.host, s.calls, step.after, step.bulk, s.sent, s.taken, step.batch, step.kept);
      AdditionsReachTotals(s.host, CountBatch(s.host, s.calls, step.after, |step.batch|, out), FIELDS);
    } else if step.VmTurn? {
      TurnNeverSubtracts(step.bulk, step.turn, s.vm, cap, m);
      AdditionsReachTotals(s.vm.stats, V.OneTurn(step.bulk, step.turn, s.vm, cap, m).s.stats, VM_FIELDS);
    }
  }

  lemma {:induction false} RunKeepsInv(s: System, steps: seq<Step>, t: System, cap: nat, m: nat)
    requires 0 < cap && ReportInv(s) && TotalsInv(s) && Reaches(s, steps, t, cap, m)
    ensures ReportInv(t) && TotalsInv(t)
    decreases |steps|
  {
    if steps != [] {
      var n := |steps| - 1;
      var mid :| Reaches(s, steps[..n], mid, cap, m) && Enabled(mid, steps[n]) && t == Next(mid, steps[n], cap, m);
      RunKeepsInv(s, steps[..n], mid, cap, m);
      hide ReportInv, TotalsInv, Enabled, Next;
      StepKeepsReportInv(mid, steps[n], cap, m);
      StepKeepsTotalsInv(mid, steps[n], cap, m);
    }
  }

  lemma StartKeepsInv(s: System)
    requires Start(s)
    ensures ReportInv(s) && TotalsInv(s)
  {
    assert Keep([], []) == [];
  }

  /** In every run the reports form a log of counters that only grow, although a
      report may fall between the additions of a batch and its own reads are not
      taken at one moment. */
  lemma ReportsGrow(s: System, steps: seq<Step>, t: System, cap: nat, m: nat)
    requires 0 < cap && Start(s) && Reaches(s, steps, t, cap, m)
    ensures Growing(t.log)
  {
    StartKeepsInv(s);
    RunKeepsInv(s, steps, t, cap, m);
  }

  /** So no delta between two reports is negative. */
  lemma DeltasNeverNegative(s: System, steps: seq<Step>, t: System, cap: nat, m: nat, i: nat, j: nat)
    requires 0 < cap && Start(s) && Reaches(s, steps, t, cap, m) && i <= j < |t.log|
    ensures var d := ComputeDelta(t.log[i], t.log[j]); NotNegative(d.host) && NotNegative(d.vm)
  {
    ReportsGrow(s, steps, t, cap, m);
    GrowingDeltas(t.log, i, j);
  }

  /** And skipping intervals can only lose drops, never invent them. */
  lemma RecordedDropsAreBounded(s: System, steps: seq<Step>, t: System, cap: nat, m: nat)
    requires 0 < cap && Start(s) && Reaches(s, steps, t, cap, m) && t.log != []
    ensures var recorded, d := RecordedDrops(Rates(t.log)), ComputeDelta(t.log[0], t.log[|t.log| - 1]);
            recorded.0 <= d.host.drops && recorded.1 <= d.vm.drops
  {
    ReportsGrow(s, steps, t, cap, m);
    GrowingDropsAreBounded(t.log);
  }

  lemma {:induction false} SettlingOnlyAdds(s: Stats, dues: seq<Due>)
    ensures AtMost(s, Settle(s, dues))
    decreases |dues|
  {
    if dues != [] {
      SettlingOnlyAdds(Add(s, dues[0].f, dues[0].n), dues[1..]);
    }
  }

  /** No report runs ahead of what happened: its counters, taken one by one, are
      at most those of the packets that left, were dropped or were accepted. */
  lemma ReportsNeverRunAhead(s: System, steps: seq<Step>, t: System, cap: nat, m: nat)
    requires 0 < cap && Start(s) && Reaches(s, steps, t, cap, m) && t.log != []
    ensures var last := t.log[|t.log| - 1].host;
            && last.packets <= |t.sent| && last.bytes <= TotalSize(t.sent) && last.drops <= |t.taken| - |t.sent|
            && last.fast <= t.calls.bulk && last.slow <= t.calls.single
    ensures t.log[|t.log| - 1].vm.packets <= t.vm.accepted <= |t.vm.handed|
  {
    StartKeepsInv(s);
    RunKeepsInv(s, steps, t, cap, m);
    SettlingOnlyAdds(t.host, t.hostDue);
    SettlingOnlyAdds(t.vm.stats, t.vmDue);
    LastIsBehind(t);
  }

  lemma LastIsBehind(t: System)
    requires ReportInv(t) && t.log != []
    ensures var last := t.log[|t.log| - 1]; AtMost(last.host, t.host) && AtMost(last.vm, t.vm.stats)
  {
    var last := t.log[|t.log| - 1];
    hide Counter;
    EntriesGrow(last, Entry(last.time, t.host, t.vm.stats));
  }

  /** The first k counters, in the order a report reads them. */
  function Counters(s: System, k: nat): (read: seq<nat>)
    requires k <= 10
    ensures |read| == k && forall i :: 0 <= i < k ==> read[i] == Counter(s.host, s.vm.stats, i)
  {
    seq(k, i requires 0 <= i < k => Counter(s.host, s.vm.stats, i))
  }

  lemma ReachesNext(s: System, steps: seq<Step>, mid: System, step: Step, cap: nat, m: nat)
    requires 0 < cap && Reaches(s, steps, mid, cap, m) && Enabled(mid, step)
    ensures Reaches(s, steps + [step], Next(mid, step, cap, m), cap, m)
  {
    hide Enabled, Next;
    assert (steps + [step])[..|steps|] == steps;
  }

  /** A report of which k fields are read, nothing else having happened. */
  lemma {:induction false} ReadsSoFar(s: System, time: real, k: nat, cap: nat, m: nat) returns (steps: seq<Step>)
    requires 0 < cap && k < 10 && !s.reporting
    ensures |steps| == k + 1 && steps[0] == StartReport(time) && forall i :: 1 <= i <= k ==> steps[i] == ReadField
    ensures Reaches(s, steps, s.(reporting := true, time := time, read := Counters(s, k)), cap, m)
  {
    hide Counter;
    var mid;
    if k == 0 {
      assert Reaches(s, [], s, cap, m);
      ReachesNext(s, [], s, StartReport(time), cap, m);
      steps := [] + [StartReport(time)];
      assert Counters(s, 0) == [];
    } else {
      steps := ReadsSoFar(s, time, k - 1, cap, m);
      mid := s.(reporting := true, time := time, read := Counters(s, k - 1));
      ReachesNext(s, steps, mid, ReadField, cap, m);
      steps := steps + [ReadField];
      assert Counters(s, k) == Counters(s, k - 1) + [Counter(s.host, s.vm.stats, k - 1)];
    }
  }

  /** A report that nothing interrupts tells each counter under its own name. */
  lemma QuietReportIsExact(s: System, time: real, cap: nat, m: nat) returns (steps: seq<Step>, t: System)
    requires 0 < cap && !s.reporting
    ensures |steps| == 11 && steps[0] == StartReport(time) && forall i :: 1 <= i <= 10 ==> steps[i] == ReadField
    ensures Reaches(s, steps, t, cap, m) && t.log == s.log + [Entry(time, s.host, s.vm.stats)]
  {
    steps := ReadsSoFar(s, time, 9, cap, m);
    var mid := s.(reporting := true, time := time, read := Counters(s, 9));
    hide Reaches;
    ReachesNext(s, steps, mid, ReadField, cap, m);
    steps, t := steps + [ReadField], Next(mid, ReadField, cap, m);
    assert mid.read + [Counter(s.host, s.vm.stats, 9)] == Counters(s, 10);
    ExactEntry(s, time);
  }

  lemma ExactEntry(s: System, time: real)
    ensures EntryOf(time, Counters(s, 10)) == Entry(time, s.host, s.vm.stats)
  {
  }

  /** The host's thread makes the additions it owes. */
  lemma {:induction false} HostSettles(s: System, steps: seq<Step>, mid: System, cap: nat, m: nat)
    returns (longer: seq<Step>, t: System)
    requires 0 < cap && Reaches(s, steps, mid, cap, m)
    ensures Reaches(s, longer, t, cap, m) && t == mid.(host := Settle(mid.host, mid.hostDue), hostDue := [])
    decreases |mid.hostDue|
  {
    hide Reaches, Add;
    longer, t := steps, mid;
    if mid.hostDue != [] {
      ReachesNext(s, steps, mid, HostAdds, cap, m);
      longer, t := HostSettles(s, steps + [HostAdds], Next(mid, HostAdds, cap, m), cap, m);
    }
  }

  /** The vm's thread makes the additions it owes. */
  lemma {:induction false} VmSettles(s: System, steps: seq<Step>, mid: System, cap: nat, m: nat)
    returns (longer: seq<Step>, t: System)
    requires 0 < cap && Reaches(s, steps, mid, cap, m)
    ensures Reaches(s, longer, t, cap, m)
    ensures t == mid.(vm := mid.vm.(stats := Settle(mid.vm.stats, mid.vmDue)), vmDue := [])
    decreases |mid.vmDue|
  {
    hide Reaches, Add;
    longer, t := steps, mid;
    if mid.vmDue != [] {
      ReachesNext(s, steps, mid, VmAdds, cap, m);
      longer, t := VmSettles(s, steps + [VmAdds], Next(mid, VmAdds, cap, m), cap, m);
    }
  }

  /** Whatever outcome write_to_vm() can have, it can have next, and its additions
      made one by one lead to the counters of the whole batch. */
  lemma BatchIsCounted(s: System, bulk: bool, batch: seq<Datagram>, kept: seq<bool>, after: Calls, cap: nat, m: nat)
    returns (steps: seq<Step>, t: System)
    requires 0 < cap && s.hostDue == []
    requires |kept| == |batch| && Accounted(s.calls, after, bulk, |batch|, |Keep(batch, kept)|)
    ensures Reaches(s, steps, t, cap, m) && t.hostDue == []
    ensures t.host == CountBatch(s.host, s.calls, after, |batch|, Keep(batch, kept))
  {
    var step := HostBatch(bulk, batch, kept, after);
    assert Reaches(s, [], s, cap, m);
    ReachesNext(s, [], s, step, cap, m);
    var total := CountBatch(s.host, s.calls, after, |batch|, Keep(batch, kept));
    AdditionsReachTotals(s.host, total, FIELDS);
    hide Reaches, Settle, Keep, Accounted;
    steps, t := HostSettles(s, [] + [step], Next(s, step, cap, m), cap, m);
  }

  /** The same for any turn of forward_from_vm(). */
  lemma TurnIsCounted(s: System, bulk: bool, turn: V.Turn, cap: nat, m: nat) returns (steps: seq<Step>, t: System)
    requires 0 < cap && s.vmDue == [] && !s.vmEnded
    ensures Reaches(s, steps, t, cap, m) && t.vmDue == []
    ensures t.vm == V.OneTurn(bulk, turn, s.vm, cap, m).s && (t.vmEnded <==> V.OneTurn(bulk, turn, s.vm, cap, m).End?)
  {
    var step := VmTurn(bulk, turn);
    assert Reaches(s, [], s, cap, m);
    ReachesNext(s, [], s, step, cap, m);
    TurnNeverSubtracts(bulk, turn, s.vm, cap, m);
    AdditionsReachTotals(s.vm.stats, V.OneTurn(bulk, turn, s.vm, cap, m).s.stats, VM_FIELDS);
    hide Reaches, Settle, V.OneTurn;
    steps, t := VmSettles(s, [] + [step], Next(s, step, cap, m), cap, m);
  }
}
